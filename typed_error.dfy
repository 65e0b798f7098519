/** The error objects a `Fail` carries. */
module TypedErrors {
  import opened Wrappers

  /**
   * An error with a literal discriminant `kind` (the source's `type` field) and
   * a payload `data` bound to it. The pairing of `kind` and `data` is fixed at
   * construction; `message` is the one field that can change afterwards, and
   * the only operation that changes it is `Results.Expect`.
   */
  class TypedError<D> {
    var message: string
    const kind: string
    const data: Option<D>

    /** `new TypedError({ type, message?, data? })`: an omitted message becomes the empty string. */
    constructor (kind: string, message: Option<string>, data: Option<D>)
      ensures this.kind == kind && this.data == data
      ensures message.Some? ==> this.message == message.value
      ensures message.None? ==> this.message == ""
    {
      this.kind := kind;
      this.data := data;
      this.message := message.GetOr("");
    }
  }
}
