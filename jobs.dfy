/** The job snapshot that the web client polls (`Job` in the client's type
    declarations, `JobOut` on the server). The opaque `payload` mapping is
    not interpreted by the polling code and is left out. */
module Jobs {
  import opened Seqs

  datatype Job = Job(id: string, status: string, progress: int, message: Option<string>)

  /** "finished" and "failed" end a polling loop. */
  predicate IsTerminal(status: string) {
    status == "finished" || status == "failed"
  }

  /** JavaScript truthiness of a `string | null` value: `null` and the empty
      string are both falsy. */
  predicate Truthy(s: Option<string>) {
    s.Some? && s.value != ""
  }
}
