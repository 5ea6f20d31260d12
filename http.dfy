/** What the gateway exchanges with browsers and with the tenant backends, kept opaque. */
module Http {
  /**
    A JSON value the gateway passes along without looking inside: GraphQL
    variables, backend response bodies, user metadata. `EmptyObject` is the
    `{}` the source supplies as a default.
   */
  datatype Json = EmptyObject | Opaque(text: string)

  /** `response.ok` of the Fetch standard: a status in the range 200 to 299. */
  predicate IsOk(status: int)
  {
    200 <= status <= 299
  }
}
