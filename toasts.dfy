/** What the submit handlers of the pages share: how a mutation settles and
    when the toast id kept in a ref counts as set. */
module Toasts {
  import opened Common

  /** How the mutation settles: done, or rejected with a GraphQL error, an
      `Error`, or some other thrown value. */
  datatype Outcome = Created | GraphQLFailure(message: string) | ErrorFailure(message: string) | OtherFailure

  /** JavaScript truthiness of the stored toast id (`null` and `0` are falsy). */
  predicate Truthy(id: Option<nat>) {
    id.Some? && id.value != 0
  }
}
