/** The session interface: what the library asks of a maildrop and what it may answer. */
module Sessions {
  import opened Lines

  /** The three kinds of error the server tells apart. */
  datatype SessionError =
    | Protocol(code: string, message: string, close: bool)
    | CloseConnection
    | Plain(text: string)

  datatype Reply<+T> = Ok(value: T) | Err(error: SessionError)

  /** The outcome of Login and AuthenticatePlain; `Hijacked` is success of a session that has
      taken the connection over. */
  datatype AuthReply = Accepted | Hijacked | Rejected(error: SessionError)

  datatype Info = Info(num: int, size: int)

  datatype Uid = Uid(num: int, uid: string)

  /** A message body as its reader delivers it: chunks, then the end or a read error; `octets`
      is the size announced by a sized body. */
  datatype Body = Body(chunks: seq<string>, failed: bool, octets: Option<int>)

  datatype Language = Language(tag: string, description: string)

  datatype LangSupport = LangSupport(set_: string -> Reply<string>, list: Reply<seq<Language>>)

  /** A session at one moment: its answer to every call that could be made now. Extensions the
      session does not implement are `None`. */
  datatype Session = Session(
    login: (string, string) -> AuthReply,
    mechanisms: Option<seq<string>>,
    plain: (string, string, string) -> AuthReply,
    stat: Reply<(int, int)>,
    list: nat -> Reply<seq<Info>>,
    uidl: nat -> Reply<seq<Uid>>,
    retr: nat -> Reply<Body>,
    top: (nat, nat) -> Reply<Body>,
    dele: nat -> Reply<()>,
    rset: Reply<()>,
    noop: Reply<()>,
    quit: Reply<int>,
    lang: Option<LangSupport>,
    utf8: Option<Reply<()>>
  )
}
