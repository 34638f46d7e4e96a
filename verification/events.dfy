/** The decoded change events the replay loop consumes: one `Stmt` per input
    line, each carrying a nested `Message` whose columns hold typed wire values. */
module Events {

  datatype Option<T> = None | Some(value: T)

  /** A JSON scalar as the decoder leaves it in an untyped slot: a number
      (a double on the wire, kept here as an integer), a string, a boolean or null. */
  datatype Scalar = Number(n: int) | Str(s: string) | Boolean(b: bool) | Null

  /** One column of an inserted row: its name, the upstream type name and the
      untyped value. */
  datatype Column = Column(name: string, typeTag: string, value: Scalar)

  /** The nested message. Its action and integer xid are independent of the
      event's own; schema, table and columns are absent on B, C and K lines. */
  datatype Message = Message(action: string, xid: int, schema: string, table: string, columns: seq<Column>)

  /** One event. Only `action` and `message` are read by the replay loop;
      xid, lsn and timestamp are carried unread. */
  datatype Stmt = Stmt(action: string, xid: string, lsn: string, timestamp: string, message: Message)

  /** One input line: either it decoded into a `Stmt`, or it did not. */
  datatype Line = Decoded(stmt: Stmt) | Malformed(raw: string)

  /** The message fields as present on a line; the optional ones may be missing. */
  datatype MessageFields = MessageFields(
    action: string, xid: int,
    schema: Option<string>, table: Option<string>, columns: Option<seq<Column>>)

  /** Decoding leaves a missing optional field at its zero value: the empty
      string or the empty column list. */
  function MessageOf(f: MessageFields): Message
  {
    Message(f.action, f.xid,
            (match f.schema case Some(s) => s case None => ""),
            (match f.table case Some(t) => t case None => ""),
            (match f.columns case Some(cs) => cs case None => []))
  }
}
