# A verified model of a POP3 server, its client and an in-memory maildrop

The repository is a POP3 server library (`pop3server`), a client (`pop3client`) and a maildrop kept
in memory (`pop3mem`). This project models the four layers that have to fit together and proves, for
all inputs and all runs, that they do:

1. **The body codec.** The server streams a message through a byte-at-a-time transducer that stuffs
   dots, turns bare LF into CRLF and completes the last line; the client reads lines up to "." and
   takes the stuffing out again.
2. **The server's connection.** A command loop over the AUTHORIZATION and TRANSACTION states, with
   USER/PASS, SASL PLAIN, STLS, error counting with back-off, hijacking and the closing rules.
3. **The maildrop.** Sessions take a snapshot at login, mark messages by number, and on QUIT remove
   the marked messages from the shared store by identity.
4. **The composition.** What the client prints the server parses, what the server prints the client
   parses, and the pair behaves like an abstract maildrop.

## How the project is laid out

Where the program updates things in place, the model is a class with the same fields and methods
(`DotStuffWriters.DotStuffWriter`, `Server.Conn`, `LineReader.BufReader`, `Client.Client`,
`Client.BodyReader`, `Maildrop.Store`, `Maildrop.MailSession`, `Mailhost.Host`), and every method is
proved against a specification function; the theorems are about those functions.

| layer | files |
|---|---|
| text, numbers, lines | `Lines`, `Text`, `Numbers`, `Base64`, `Sasl` |
| body codec | `DotStuff` (meaning), `DotStuffWriter` (streaming), `LineReader` (bounded reading), `Top`, `HeaderBoundary` |
| server | `Sessions`, `Protocol` (what one command and a run do), `Wire` (runs from bytes), `Server` (the connection object), `Discipline`, `Reports`, `Counting`, `Budget`, `Backoff`, `CredentialSafety`, `Endings`, `Capabilities`, `Casing`, `Continuation`, `Answers`, `Framing` |
| maildrop | `Maildrop` (objects), `Interleaving` (any number of sessions), `SecondLogin` (two runs), `Mailhost` (the objects are the sessions interleaved) |
| client | `ClientReplies`, `Client` |
| composition | `Requests`, `Delivery`, `Dialogue`, `ServerSide`, `ClientSide`, `EndToEnd`, `Served`, `Logins`, `Conversation`, `Concurrent` |

All that a command depends on besides its line is a parameter of its step (`Protocol.Env`): the session's
answer to every call, the line a continuation reads, whether bytes are pipelined behind STLS, whether
the TLS handshake succeeds and whether the flush succeeds. `Wire` then takes lines, continuations and
pipelined bytes from the two byte streams a client sends, in plaintext and over TLS, so that only the
session, the handshake, the flush, how much has arrived and how a stream ends are left open. A theorem
"over every run" quantifies over all of these.

## Main results

- `EndToEnd.Refinement`, `EndToEnd.InStep`, `Served.BytesToResults`, `Conversation.Converse`: for every
  sequence of client calls whose faulty numbers stay below the error limit the results are those of a
  snapshot with a set of marks, the store ends up without exactly the marked messages, and after each
  call, bodies closed early included, the client's reader stands at the start of the next response.
- `DotStuff.RoundTrip` with `DotStuffWriters.CopyBody` and `Client.UseBody`: for every body, every
  cut of it into writes, every following byte string and every mix of reads and closes.
- `DotStuffWriters.DotStuffWriter.Write`, `CopyBody`: the exact state and output when the writer below
  fails at any byte, for any cut into writes.
- `Top.TopIsPrefixOfRetr`: TOP is a prefix of RETR after the whole pipeline, grows with the line
  count, and equals RETR if and only if all body lines are asked for.
- `Framing.OneResponsePerCommand`, `Discipline.CallDiscipline`, `CredentialSafety.CredentialsWithinOneLayer`,
  `Budget.ErrorBudget`, `Counting.CountsExactly`, `Endings.EndsExactlyForReasons`: invariants over all runs of the server, and
  `Server.Conn.Serve`, which shows that the connection object, reading its own lines, has exactly these
  runs.
- `Wire.LinesStayOnTheirLayer`, `Wire.SecureIgnoresPlain`: no plaintext byte is heard, or matters, after
  the upgrade to TLS.
- `Interleaving.Reachable`, `Conservation`, `Isolation`: any interleaving of any number of sessions.
- `Concurrent.AllConversations`: any number of conversations at once over one store, each with the
  results of its own snapshot.

## What turned out to be conditional

- The comment at pop3server/dotstuff.go:13-19 says that the output keeps the size of the body plus its
  bare LFs. That is the size after un-stuffing, and it is exact if and only if the body is empty or
  ends with LF (`DotStuff.AnnouncedSize`); `DotStuff.Octets` has the exact counts for all bodies.
- The truncation for TOP looks for CRLFCRLF anywhere before it looks for LFLF
  (pop3mem/store.go:284-291), although its comment speaks of the first blank line.
  `HeaderBoundary.HeaderEndsAtFirstBlank` says exactly when the two agree, and
  `HeaderBoundary.MixedEndings` is a message on which they do not.
- Messages are conserved for a user if and only if the user is never replaced while messages are left
  (`Interleaving.Conservation`); `Interleaving.ReplacementLoses` is a run in which one is lost, and
  `Interleaving.Reachable` accounts for these messages too.
- The total back-off is bounded for exactly the configurations that `Backoff.BoundedExactly` names. With
  errors limited to two or more, failed logins exempt and a login in reach it is not, and the run that
  shows it starts at the greeting.
- CAPA makes the same offers in both states. `Capabilities.OffersAgainstCommands` says exactly when an
  offer is false (in the TRANSACTION state those of USER, STLS and PLAIN, unless suppressed, and
  configured ones that nothing stands behind) and when a command is accepted without being offered
  (when it is suppressed and not configured).
- A session that logs in again while it is open keeps its marks, and their numbers then belong to a new
  snapshot. `SecondLogin.MarkBeyondSnapshot` and `SecondLogin.UnnamedRemoved` are runs in which a mark is
  no number any more and in which a message that no Dele named is removed; `Interleaving.Reachable` says
  exactly when marks stay within the snapshot and when they keep their meaning. The server never logs a
  session in again (`Discipline.CallDiscipline`).
- A password loses its trailing whitespace on the way to Login, and one that is all whitespace is a
  syntax error (`Delivery.PassCallsLogin`).

## Model

| member | source | states |
|---|---|---|
| DotStuffWriters.DotStuffWriter.WriteByte | pop3server/dotstuff.go:48-87 | for a writer that may fail at any byte: what of one byte's expansion gets through, and that the fields move only when all of it did |
| DotStuffWriters.DotStuffWriter.Write | pop3server/dotstuff.go:39-90 | succeeds exactly when the encoding fits; in every case what is sent is the encoding cut off exactly where the writer below has no more room; returns the number of bytes fully processed, with fields after exactly these, and below them their encoding plus, on failure, a proper prefix of the next byte's expansion |
| DotStuffWriters.DotStuffWriter.Close | pop3server/dotstuff.go:92-111 | completes the last line by what is missing of CRLF and ends the body, or on failure writes the part that fits |
| DotStuffWriters.CopyBody | pop3server/conn.go:769-781 | what is sent, how much room is left and which bytes of the body have been processed depend on the body only, not on how it is cut into writes, whether or not the writer below fails |
| DotStuff.EncodeConcat | pop3server/dotstuff.go:47-90 | encoding in two parts is encoding the whole: the two fields carry all that matters across a cut |
| DotStuff.EncodePrefix | pop3server/dotstuff.go:47-90 | a prefix of the input gives a prefix of the output |
| DotStuff.EncodeLines | pop3server/dotstuff.go:47-111 | the transducer with its completion is line-by-line stuffing: every line of the body, ended by exactly one CRLF, with one dot more if it starts with one |
| DotStuff.StuffedIsLines | pop3server/dotstuff.go:92-111 | the wire form of every body is its stuffed lines and then the terminator |
| DotStuff.RoundTrip | pop3client/commands.go:193-236 | for every body and all following bytes, reading to "." within the line limit yields the body's lines and leaves exactly the following bytes; unstuffed they are the body in CRLF-normal form |
| DotStuff.StuffedLine | pop3client/commands.go:230-237 | a stuffed line is never the terminator and unstuffing recovers it |
| DotStuff.NormalIdempotent | pop3server/dotstuff.go:8-19 | a reconstructed body sent again is reconstructed unchanged |
| DotStuff.Octets | pop3server/dotstuff.go:13-19 | exact octet counts of the wire form and of the reconstructed body, by counts over the body's positions |
| DotStuff.AnnouncedSize | pop3server/body.go:5-13 | body length plus bare LFs is the size the client reconstructs if and only if the body is empty or ends with LF |
| LineReader.BufReader.ReadLine | pop3server/conn.go:1007 | one buffered read: a whole line without its ending, or a prefix chunk that never parts a CR from its LF |
| LineReader.ServerReadLine | pop3server/conn.go:1003-1023 | however the line is chunked: the line if it is within the limit, else too long, and never more than the limit plus one chunk accumulated; at the end of the stream an unterminated piece is handed out as a line unless the stream ends where the buffer was full |
| LineReader.ClientReadLine | pop3client/client.go:324-343 | the same result in all cases for the client's loop, which checks after every chunk |
| Lines.ReadBack | pop3client/client.go:314-322 | a line written with CRLF is read back exactly, even when it ends in CR |
| Lines.ReadUntilDotBlock | pop3client/client.go:345-363 | a block of lines other than "." with its terminator is read back exactly, whatever follows |
| Numbers.ParseInt | pop3server/conn.go:1115-1135 | accepts exactly the non-empty digit strings of value at most 2^31-1 and returns that value; the 64-bit accumulator stays within 10 * (2^31-1) + 9 |
| Numbers.ParseDec | pop3client/commands.go:67-68 | the server's parser inverts the client's printing of every number in range and rejects all others |
| Numbers.AtoiOfDec | pop3client/commands.go:239-253 | the client's parser inverts the printing of exactly the 64-bit numbers |
| Numbers.AtoiRejects | pop3client/commands.go:239-253 | nothing but a non-empty run of digits with at most one sign before it is a number to the client |
| Text.VerbAndFields | pop3server/conn.go:194-202 | for trimmed lines whose only whitespace is space and tab, the verb with the tokenised raw argument is the tokenised line |
| Text.TrimExactly | pop3server/conn.go:189 | trimming takes off whitespace at both ends and all of it |
| Text.FieldsAtSpace | pop3server/conn.go:201 | a whitespace character separates fields wherever it stands |
| Text.UpperExactly | pop3server/conn.go:200 | two texts have the same upper-case form if and only if they differ only in the case of ASCII letters |
| Text.SanitizeExactly | pop3server/conn.go:1103-1113 | of a text exactly its CRs and LFs are lost, and the rest keeps its order |
| Text.ControlExactly | pop3server/conn.go:1168-1177 | control characters are exactly the codes below 0x20 and 0x7F |
| Casing.LineVerbExactly | pop3server/conn.go:199-201 | a line has a verb of the protocol if and only if its first word is the verb's name in some case |
| Casing.VerbInAnyCase | pop3server/conn.go:199-202 | a verb written in any case with any tokens is taken for the same command |
| Casing.ContainsExactly | pop3server/conn.go:1137-1146 | a name is on a list if and only if it is there in some case |
| Casing.MechanismInAnyCase | pop3server/conn.go:546-560 | AUTH goes on, with the initial response or by the prompt, if and only if the mechanism asked for and one announced are PLAIN in some case |
| Base64.RoundTrip | pop3client/client.go:217-218 | decoding inverts encoding for every byte string (section 4 of RFC 4648) |
| Base64.AlphabetInOrder | pop3client/client.go:218 | the alphabet of the encoding and its order (table 1 of RFC 4648) |
| Base64.DecodesExactly | pop3server/conn.go:1149-1152 | decoding succeeds if and only if the text, CRs and LFs left out, is groups of four characters of the alphabet of which the last may end in one or two "="; and the length of the result |
| Sasl.SplitNull | pop3server/conn.go:1179-1192 | the loop computes the parts between the NULs |
| Sasl.JoinSplit | pop3server/conn.go:1179-1192 | every string is its parts joined, and no part has a NUL |
| Sasl.SplitJoin | pop3server/conn.go:1179-1192 | NUL-free parts are recovered from their join |
| Sasl.Decode | pop3server/conn.go:1148-1166 | the decoder with its loops refuses what is not base64, and yields credentials if and only if the response decodes to their payload and they are deliverable |
| Sasl.DecodesExactly | pop3server/conn.go:1148-1166 | the same of the specification: credentials come of a response if and only if it decodes to their payload and they are deliverable |
| Sasl.PlainRoundTrip | pop3server/conn.go:1148-1177 | the credentials a client encodes are recovered if identity and username have no control character and the password no NUL, and rejected otherwise |
| Top.ComputeTop | pop3mem/store.go:281-316 | the loop computes the truncation of its specification |
| Top.TakeLoop | pop3mem/store.go:300-315 | the loop takes exactly the first lines asked for, as far as there are any |
| Top.TopLines | pop3mem/store.go:281-316 | TOP is the first lines of the message: no line is ever cut |
| Top.TopIsPrefixOfRetr | pop3mem/store.go:281-316 | after stuffing and unstuffing TOP is a prefix of RETR, monotone in the line count, and equal to it if and only if the count reaches the number of body lines |
| Top.TopOfCleanMessage | pop3mem/store.go:281-316 | on CRLF-delimited messages with a non-empty first line: the headers, the empty line and as many body lines as asked for |
| HeaderBoundary.HeaderEndsAtFirstBlank | pop3mem/store.go:284-291 | the headers end at the first blank line if and only if that ends CRLFCRLF, or ends LFLF in a message without CRLFCRLF |
| HeaderBoundary.NoBlankNoHeader | pop3mem/store.go:292-295 | without a blank line there is no header boundary |
| HeaderBoundary.MixedEndings | pop3mem/store.go:284-291 | a message whose headers are taken to reach beyond its first blank line |
| Maildrop.Store.AddUser | pop3mem/store.go:57-62 | the user's box is empty afterwards, replaced or new, and no other changes |
| Maildrop.Store.AddMessage | pop3mem/store.go:64-77 | a new message object at the end of the box; an unknown user is an error that changes nothing |
| Maildrop.Store.Authenticate | pop3mem/store.go:91-117 | succeeds exactly for a known user with the stored password, and returns the box as it is |
| Maildrop.Store.Expunge | pop3mem/store.go:119-142 | removes by identity exactly the given messages from that user's box, keeps the order of the others, and returns how many went |
| Maildrop.Filter | pop3mem/store.go:131-141 | the loop keeps the others in order and counts what it drops |
| Maildrop.Agreement | pop3mem/store.go:175-232 | STAT is the length and sum of LIST; LIST and UIDL carry the same strictly increasing numbers; asking for one message succeeds exactly for the numbers listed, with the listed entry |
| Maildrop.MailSession.Login | pop3mem/store.go:159-167 | a snapshot on success, no change on failure, marks untouched either way |
| Maildrop.MailSession.Stat | pop3mem/store.go:187-196 | the loop computes count and size of the unmarked messages |
| Maildrop.MailSession.List | pop3mem/store.go:198-214 | the loop lists the unmarked numbers, or the one asked for |
| Maildrop.MailSession.Uidl | pop3mem/store.go:216-232 | likewise with unique-ids |
| Maildrop.MailSession.Retr | pop3mem/store.go:234-240 | succeeds exactly for a number of the snapshot that is not marked, with the data of the message it denotes; the error tells the two kinds of failure apart |
| Maildrop.MailSession.Top | pop3mem/store.go:242-248 | succeeds for the same numbers, with the first lines of that message, none of them cut |
| Maildrop.MailSession.Dele | pop3mem/store.go:250-259 | marks a number of the snapshot that is not marked yet, else an error and no change |
| Maildrop.MailSession.ToRemove | pop3mem/store.go:272-277 | the loop over the marks, in any order, collects exactly the marked messages |
| Maildrop.MailSession.Quit | pop3mem/store.go:268-279 | of the user's box exactly the marked messages are removed, and their number is returned |
| Interleaving.Reachable | pop3mem/store.go:57-142 | after any interleaving: messages added are those left, those counted by Quits and those lost with replaced users; none is counted twice; survivors keep append order; what is gone was counted by a Quit or went with its user; a session's marks are numbers of its snapshot in every state if and only if they are numbers of the box at each further login, and denote what its Dele commands named in every state if and only if they denote the same messages in the box at each further login |
| Interleaving.Conservation | pop3mem/store.go:119-142 | for every user, messages added equal messages left plus the sum of the counts returned if and only if every AddUser of that name met an empty box |
| Interleaving.ReplacementLoses | pop3mem/store.go:57-62 | a run in which replacing a user loses a message |
| Interleaving.DisappearsOnlyMarked | pop3mem/store.go:250-279 | a message leaves a box only when a session that had it marked quits, or when its user is replaced; and while the session's marks keep their meaning, only if one of its Dele commands named it |
| Interleaving.RemovedWasNamed | pop3mem/store.go:250-279 | over every run in which a session's further logins find its marks denoting the same messages, its Quits remove only messages its Dele commands named |
| Interleaving.NamedByDele | pop3mem/store.go:250-266 | a message counts as named only by a Dele of that session that succeeded on it and that no Rset took back |
| SecondLogin.MarkBeyondSnapshot | pop3mem/store.go:159-167 | a run after which a session that logged in again has a mark beyond its snapshot |
| SecondLogin.UnnamedRemoved | pop3mem/store.go:159-167 | a run in which the Quit of a session that logged in again removes a message no Dele named, and leaves the one that was named |
| Interleaving.Isolation | pop3mem/store.go:114-116 | whatever happens until it logs in again, a session's numbers denote the same messages, and others never touch its marks |
| Mailhost.Host.AddUser | pop3mem/store.go:57-62 | the store object takes the interleaving's step |
| Mailhost.Host.Connect | pop3mem/store.go:79-83 | a fresh session object takes the interleaving's step |
| Mailhost.Host.AddMessage | pop3mem/store.go:64-77 | the store object takes the interleaving's step, with a message never seen before |
| Mailhost.Host.Login | pop3mem/store.go:159-167 | the session object takes the interleaving's step, be it its first login or a further one, which keeps the marks |
| Mailhost.Host.Dele | pop3mem/store.go:250-259 | the session object takes the interleaving's step |
| Mailhost.Host.Rset | pop3mem/store.go:261-264 | the session object takes the interleaving's step |
| Mailhost.Host.Quit | pop3mem/store.go:268-279 | session and store objects take the interleaving's step, and the count returned is the one in the history |
| Server.Conn.Okay | pop3server/conn.go:913-921 | writes one positive line, free of CR and LF inside |
| Server.Conn.Fail | pop3server/conn.go:923-931 | writes one negative line likewise |
| Server.Conn.ApplyErrorDelay | pop3server/conn.go:1029-1047 | sleeps the capped, progressive back-off for the current count, or not at all |
| Server.Conn.ReadLine | pop3server/conn.go:1003-1023 | takes exactly the next line off the connection's current reader, or says why there is none |
| Server.Conn.RefuseClient | pop3server/conn.go:944-954 | a client error is counted once, slept for and answered |
| Server.Conn.RefuseSession | pop3server/conn.go:956-993 | a session's error is answered, not counted, and closes exactly when it is a bare request to close or carries the wish |
| Server.Conn.WriteCap | pop3server/conn.go:408-419 | a capability line unless its name is suppressed |
| Server.Conn.HandleCapa | pop3server/conn.go:421-463 | the whole capability response, line by line in order, as specified for the layer, the session and the configuration; no field, call or sleep |
| Server.Conn.HandleUser | pop3server/conn.go:465-483 | takes a username only where authentication is permitted and it has no control character; fields, bytes, session calls and sleeps are exactly those specified, as for every handler below |
| Server.Conn.HandlePass | pop3server/conn.go:485-521 | Login is called at most once, with the remembered username and the raw argument; success moves to TRANSACTION, a hijack is not answered, a refusal is counted unless exempt |
| Server.Conn.FinishAuth | pop3server/conn.go:581-609 | from the encoded response on: an abort is not counted, an undecodable one is a client error, a decoded one reaches the session once |
| Server.Conn.HandleAuth | pop3server/conn.go:523-609 | mechanism list, refusals, initial response or prompt and continuation, which is the next line of the same reader; one that cannot be read closes |
| Server.Conn.ContinueAuth | pop3server/conn.go:559-579 | prompts and takes the response off the reader; without one the connection is dropped |
| Server.Conn.HandleSTLS | pop3server/conn.go:611-670 | refusals in order; bytes in the buffer and a failed handshake close; a completed one goes on with a new reader at the first byte of the TLS stream and a new writer, and forgets the username |
| Server.Conn.Upgrade | pop3server/conn.go:661-669 | the new reader stands at the first byte of the TLS stream, the old writer keeps what was written in plaintext, and nothing but layer and username changes |
| Server.Conn.ParseMsgNum | pop3server/conn.go:1072-1081 | a message number or the reason why it is none |
| Server.Conn.HandleStat | pop3server/conn.go:672-679 | one session call, its totals or its error |
| Server.Conn.HandleList | pop3server/conn.go:681-713 | one session call for the number given; a single-message query is never answered with many lines, whatever the session returns |
| Server.Conn.HandleUidl | pop3server/conn.go:715-744 | likewise, with unique-ids freed of CR and LF |
| Server.Conn.StreamBody | pop3server/conn.go:760-782 | a body is written completely stuffed, or cut off with the connection marked for closing |
| Server.Conn.HandleRetr | pop3server/conn.go:746-782 | one session call; the announced size when there is one, then the body |
| Server.Conn.HandleTop | pop3server/conn.go:784-821 | both numbers are checked before the one session call, then the body |
| Server.Conn.HandleDele | pop3server/conn.go:823-835 | one session call for a number in range, its success or error |
| Server.Conn.HandleRset | pop3server/conn.go:837-843 | one session call, its success or error |
| Server.Conn.HandleNoop | pop3server/conn.go:845-851 | one session call, its success or error |
| Server.Conn.HandleQuit | pop3server/conn.go:853-864 | one session call, the count when something was removed, and the session ends even after an error |
| Server.Conn.HandleLang | pop3server/conn.go:866-895 | the languages or the one set, tags and descriptions freed of CR and LF |
| Server.Conn.HandleUTF8 | pop3server/conn.go:897-909 | refused without the extension, else one session call |
| Server.Conn.DispatchAuth | pop3server/conn.go:299-335 | every verb in the AUTHORIZATION state has its specified effect |
| Server.Conn.DispatchTransaction | pop3server/conn.go:337-377 | every verb in the TRANSACTION state has its specified effect |
| Server.Conn.Settle | pop3server/conn.go:227-254 | the one place where it is decided whether the loop goes on, with the closing response and Close |
| Server.Conn.Turn | pop3server/conn.go:154-255 | one turn of the loop, its own line taken off the reader, is one turn of the specified run from bytes |
| Server.Conn.Execute | pop3server/conn.go:199-254 | dispatching a command and settling its turn advances the run by the command's effect |
| Server.Conn.Serve | pop3server/conn.go:141-256 | the loop refines the specified run from bytes, whatever the client sends in plaintext and over TLS and however the turns go: fields, output, session calls, sleeps, lines heard and whether it still serves |
| Wire.PlayIsExec | pop3server/conn.go:154-220 | a run from bytes is a run over the events its bytes give: every theorem over all runs holds over all byte streams |
| Wire.LinesStayOnTheirLayer | pop3server/conn.go:611-670 | over every run from bytes, continuations included: the lines heard in plaintext are the first ones of the plaintext, those heard over TLS the first ones of the TLS stream from its first byte on, none is lost in between, and no plaintext line is heard after one over TLS |
| Wire.SecureIgnoresPlain | pop3server/conn.go:661-663 | after the upgrade the run goes on the same whatever plaintext is put in the place of what was left |
| Wire.UpgradeStartsAfresh | pop3server/conn.go:627-669 | an upgrade finds the buffer empty and the TLS stream untouched |
| Wire.CredentialsFromBytes | pop3server/conn.go:465-670 | in every run from bytes credentials stay on their layer, together with the lines that carried them |
| Protocol.UnknownUnderItsName | pop3server/conn.go:379-392 | a command the state does not know, in TRANSACTION also USER, PASS, AUTH and STLS, is refused under the name it was given in upper case and counted |
| Answers.CodedError | pop3server/errors.go:54-64 | the text of a session's error, its code in brackets and upper case before it |
| Answers.MaskedError | pop3server/conn.go:979-993 | under strict errors the text of a plain error never shows, nor that of a bare request to close under any |
| Answers.FailedLogin | pop3mem/store.go:159-163 | the bytes of a failed login on the in-memory maildrop, which does not ask to close |
| Answers.AnnouncedOctets | pop3server/conn.go:760-766 | the size the session gave is the one in the response |
| Answers.AnnouncedCounts | pop3server/conn.go:859-863 | the numbers of messages expunged and listed are the ones announced |
| Answers.LanguageNamed | pop3server/conn.go:888-894 | the language the session set is the one in the response |
| Answers.SilentClient | pop3server/conn.go:160-187 | from the bytes: idle and absolute timeouts are answered differently, a client that is gone not at all, and each ends the connection |
| Answers.LongLine | pop3server/conn.go:180-186 | from the bytes: a line beyond the limit is answered and ends the connection |
| Answers.LimitAnnounced | pop3server/conn.go:236-242 | the closing response is written if and only if the error limit is what ends the connection |
| Answers.NotYet | pop3server/conn.go:322-326 | maildrop commands before authentication are counted faults without a call |
| Answers.LastRefused | pop3server/conn.go:327-330 | LAST is refused in both states and not counted |
| Answers.QuitBefore | pop3server/conn.go:312-314 | QUIT before authentication does not ask the session |
| Answers.UserExactly | pop3server/conn.go:465-483 | when USER takes the name, by codes of characters, and that it otherwise stays |
| Answers.PassExactly | pop3server/conn.go:485-521 | when PASS asks the session, with what, and what its decision changes |
| Answers.MechanismsListed | pop3server/conn.go:535-544 | AUTH alone lists the session's mechanisms |
| Answers.ArgumentsMissing | pop3server/conn.go:784-788 | commands that miss arguments are faults that say which |
| Discipline.DispatchSound | pop3server/conn.go:282-909 | for every command and whatever the session answers: at most one call, only one the state allows; the error count rises by at most one with the back-off for it; username and layer change only by USER and STLS |
| Reports.DispatchJudged | pop3server/conn.go:299-993 | for every command and whatever the session replies: a reply is reported as given, call by call; the error count rises by exactly one for a fault of the client or a rejected login that is not exempt and else stays; after either there is one sleep of the count reached times the delay, capped, and else none |
| Discipline.CallDiscipline | pop3server/conn.go:141-377 | over every run the maildrop is used only after an accepted login, no login follows success, only Close follows Quit or a hijack, and Close is called exactly when the connection has ended, and once |
| Budget.ErrorBudget | pop3server/conn.go:1032-1054 | over every run: a waiting connection is below the limit, none goes beyond it, and the total sleep is the sum of the capped back-offs of the errors counted |
| Counting.CountsExactly | pop3server/conn.go:233-242 | over every run the error count is exactly the number of the client's faults and, unless exempt, of the logins refused, so that as many refused logins as errors are allowed have ended the connection |
| Counting.WrongPassword | pop3server/conn.go:502-511 | a PASS refused by the session: the count, the sleep, whether the connection goes on, and the closing response |
| Counting.WrongPlain | pop3server/conn.go:594-601 | likewise for AUTH PLAIN |
| Backoff.ExemptUnbounded | pop3server/conn.go:502-506 | where failed logins are exempt, refused logins after one error add a sleep each, any number of times |
| Backoff.RestlessUnbounded | pop3server/conn.go:502-506 | outside the exact condition there is, for every bound, a run from the start of a connection that exceeds it |
| Backoff.BoundedExactly | pop3server/conn.go:1029-1054 | for every configuration: the total sleep is bounded over all runs if and only if no delay is configured, or errors are limited and failed logins count, or the limit is one, or no login can be reached |
| CredentialSafety.CredentialsWithinOneLayer | pop3server/conn.go:465-670 | in every run every login happens with TLS or where insecure authentication is allowed, with a username supplied by USER on the same side of STLS; the upgrade happens only with nothing pipelined, forgets the username, and is never undone (section 4 of RFC 2595) |
| Endings.DispatchJustified | pop3server/conn.go:227-242 | a command ends an open connection if and only if it is QUIT, is hijacked, is answered by a session error that asks to close, misses its continuation, breaks off a body, or loses the STLS handshake |
| Endings.EndsExactlyForReasons | pop3server/conn.go:141-256 | over every run the connection ends exactly after such a command, at the error limit, on a failed flush or when no line can be read, and nothing is answered after that |
| Endings.SessionErrorDecides | pop3server/conn.go:956-993 | for every call of every command, logins included: an error of the session is answered; with the wish to close the connection ends, and without it goes on below the error limit unless the flush fails or the command was QUIT |
| Capabilities.OfferedExactly | pop3server/conn.go:394-463 | the lines CAPA writes make exactly the offers of USER, STLS, SASL PLAIN, LANG and UTF8 that are due and not suppressed, and those of configured capabilities |
| Capabilities.AcceptedExactly | pop3server/conn.go:299-377 | the command behind an offer is accepted if and only if the offer is due and, for the three that belong to it, the connection is in the AUTHORIZATION state |
| Capabilities.OffersAgainstCommands | pop3server/conn.go:394-463 | the exact states and configurations in which an offer is made and not accepted, and in which a command is accepted and not offered |
| Capabilities.LinesListed | pop3server/conn.go:394-419 | a line is listed if and only if some capability that is not suppressed has it |
| Framing.DispatchFits | pop3server/conn.go:672-931 | the shape of every response, single-line or with lines up to ".", is the one the client expects after that command, and no line of a listing can be taken for the terminator |
| Framing.ReadReplyBack | pop3server/conn.go:911-931 | every complete reply whose lines are within the limit delimits itself: the client reads it back and nothing more, whatever bytes follow |
| Framing.OneResponsePerCommand | pop3server/conn.go:141-256 | over every run whose complete replies have lines within the limit the output is read back as the greeting and then exactly one reply per command in order; left over is nothing, one closing "-ERR", or the incomplete response of the last command |
| Requests.ParseCommandLine | pop3server/conn.go:194-202 | a line of a verb in upper case and tokens with single spaces is parsed into exactly that verb and these tokens |
| Delivery.PassLineParsed | pop3server/conn.go:194-202 | of a password on a PASS line only trailing whitespace is lost |
| Delivery.PassCallsLogin | pop3server/conn.go:485-521 | PASS calls Login with the remembered username and the password less trailing whitespace; an all-blank one is a syntax error |
| Delivery.UserPassDelivered | pop3client/client.go:232-238 | where authentication is permitted Login receives the username of USER and the password of PASS less trailing whitespace |
| Delivery.UserPassOnWire | pop3client/client.go:232-238 | the two lines are read off the wire within the limit, with anything behind them |
| Delivery.PlainDelivered | pop3client/client.go:213-230 | from the client's AUTH PLAIN line the session gets exactly the client's credentials when they are deliverable; all others are a client error |
| Delivery.PlainOnWire | pop3client/client.go:213-230 | that line is read off the wire within the limit |
| Continuation.EitherWay | pop3server/conn.go:554-579 | a response on the line after the prompt has the effect it has on the command's line, the prompt apart |
| Continuation.ResponseExactly | pop3server/conn.go:581-609 | the effect of every response by what it is: "*", not base64, deliverable credentials, or anything else |
| Continuation.MalformedRefused | pop3server/conn.go:587-592 | what is not base64 is refused as a counted fault without a call, on either line |
| Continuation.ContinuationFromBytes | pop3server/conn.go:554-609 | from a stream with the command and the response on two lines: the prompt, one call with exactly the client's credentials and its answer, or a fault, and what came behind is still to be read |
| Continuation.AbortFromBytes | pop3server/conn.go:581-585 | from a stream with "*" as the response: no call, no error, no sleep, and the connection goes on |
| Logins.UserPassFromBytes | pop3server/conn.go:465-521 | from a stream that starts with the two lines: Login gets the username and the password less trailing whitespace, both lines are answered as specified, and what came behind is still to be read |
| Logins.PlainFromBytes | pop3server/conn.go:523-609 | from a stream that starts with the client's line: deliverable credentials reach the session unchanged and are answered, all others are a counted client error |
| Logins.LogIn | pop3client/client.go:232-238 | the client object against that connection: it writes the two lines, and returns what the session decided |
| Logins.LogInPlain | pop3client/client.go:213-230 | likewise by AUTH PLAIN, with a refusal for credentials that cannot be delivered |
| Client.Client.ReadMultiLine | pop3client/client.go:345-363 | the loop returns the unstuffed lines and stands behind the terminator; a line too long, one line too many or the end of the stream fails |
| ClientReplies.TooManyLines | pop3client/client.go:358-361 | one line more than allowed fails the whole listing |
| Client.Client.Cmd | pop3client/client.go:240-249 | writes the line, returns the status line and consumes exactly it, or fails as reading a line does |
| Client.Client.CmdExpectOK | pop3client/client.go:303-312 | success or a protocol error with the status line, exactly the reply consumed; an error if and only if the reply cannot be read |
| Client.Client.Stat | pop3client/commands.go:13-36 | the result read from the status line, exactly the reply consumed, or an error if it cannot be read |
| Client.Client.List | pop3client/commands.go:38-64 | the entries read from the lines, exactly the reply consumed, or an error if it cannot be read or has too many lines |
| Client.Client.ListOne | pop3client/commands.go:66-81 | the entry read from the status line, or an error if it cannot be read |
| Client.Client.Uidl | pop3client/commands.go:83-109 | the entries read from the lines, exactly the reply consumed, or an error if it cannot be read or has too many lines |
| Client.Client.UidlOne | pop3client/commands.go:111-125 | the entry read from the status line, or an error if it cannot be read |
| Client.Client.User | pop3client/client.go:232-238 | PASS is sent only after USER was accepted, not even when the reply to USER cannot be read; the outcome is that of the last command sent |
| Client.Client.AuthPlain | pop3client/client.go:213-230 | writes the line whose delivery is proved; the outcome is the reply read, or an error |
| Client.Client.Retrieve | pop3client/commands.go:141-160 | on success a reader at the start of the body with its guard armed; on a refusal or a failed read the guard has been released once |
| Client.BodyReader.Finish | pop3client/commands.go:183-191 | the guard is released the first time and not again |
| Client.BodyReader.Read | pop3client/commands.go:193-212 | what is delivered and what remains are together what remained before; the bytes after the body stay put; end of body exactly when nothing remains; an incomplete body never ends without an error |
| Client.BodyReader.Close | pop3client/commands.go:214-228 | drains to just past the terminator, from any point; on an incomplete body an error |
| Client.BodyOnWire | pop3client/commands.go:193-212 | before the wire form of a body the reader has the body's normal form to deliver and stands before exactly what follows |
| Client.UseBody | pop3client/commands.go:183-228 | any mix of reads and closes: a prefix of the text is delivered and the client ends in sync; it fails exactly on incomplete bodies; either way the guard is released exactly once |
| Client.ReadAll | pop3client/commands.go:193-228 | reading through a buffer of any size delivers exactly the text, and fails exactly on incomplete bodies |
| Client.Fetch | pop3client/commands.go:127-160 | a retrieval read to its end: the text, the refusal or an error, exactly the reply consumed |
| Client.FetchPart | pop3client/commands.go:127-160 | a retrieval used in any way and closed early: a start of the text, and still exactly the reply consumed |
| ServerSide.RequestParsed | pop3client/commands.go:13-171 | the line of every client call is parsed by the server into the command it means |
| ServerSide.ServesEvery | pop3server/conn.go:672-864 | over an in-memory session every call's command is answered as the abstract maildrop says, and marks and store move as its do |
| ClientSide.Agree | pop3client/commands.go:13-171 | from the server's answer to any call, whatever follows, the client reads the abstract maildrop's result and leaves exactly what follows |
| EndToEnd.FeedOne | pop3server/conn.go:141-256 | one line of the client makes the server send that answer and nothing else, count an error only for a number that is none, and wait for the next unless it was QUIT |
| EndToEnd.Refinement | pop3client/commands.go:13-171 | for every conversation whose faulty numbers stay below the error limit the bytes sent are those from which the client gets, call by call, the abstract maildrop's results, up to exactly what follows; marks and store end as the maildrop's, and the error count rises by exactly the faults |
| EndToEnd.InStep | pop3client/commands.go:127-171 | after any number of the calls the client has the results so far and stands at the start of the next response |
| Conversation.Perform | pop3client/commands.go:13-171 | each client method writes its call's line and returns what the specification reads from the unread bytes, or the start of a text that was closed early, and fails exactly where that has no result |
| Conversation.Converse | pop3client/commands.go:13-171 | the client object against the server, with bodies read to the end or closed early: results of the abstract maildrop, and the server driven by the bytes the client really wrote |
| Served.SessionOnly | pop3server/conn.go:337-377 | after authentication a command depends on nothing but the session, takes no further line and stays on its layer |
| Served.FeedIsPlay | pop3server/conn.go:141-256 | the server of the conversations is the loop that runs from bytes, for every stream that starts with the calls' bytes and all turns with that session and a working flush, and it takes exactly those bytes |
| Served.BytesToResults | pop3server/conn.go:141-256 | a connection whose stream starts with the bytes of the client's calls sends the bytes from which the client gets the abstract maildrop's results, and what came behind is still to be read |
| Concurrent.OwnAsk | pop3mem/store.go:175-279 | a client's own call answers from its own snapshot and marks and moves them and the store as the abstract maildrop does |
| Concurrent.NextOfOthers | pop3mem/store.go:114-116 | whatever other connections ask and whatever else happens to the store, a connection and its session are as they were |
| Concurrent.OwnResults | pop3client/commands.go:13-171 | with any number of conversations interleaved over one store, each client gets, call by call, the results of its own snapshot and marks, and stops exactly at what follows |
| Concurrent.AllConversations | pop3mem/store.go:40-142 | so it is for all of them at once, and the store's invariant, conservation included, holds at the end |

## Left out

- Bytes: a byte is a `char` and the theorems hold for all strings; only base64 needs values below 256, and whitespace and case are those of ASCII.
- LineReader.BufReader.ReadLine: a stream is all that will ever arrive; a deadline that passes in the middle of a line, after which the program takes what has arrived for the line, is not modelled.
- Client.BodyReader.Read: what an incomplete body delivers before the error is not specified.
- Server.Conn.HandleSTLS: the handshake is an outcome and the TLS stream the bytes it yields; plaintext bytes not yet in the buffer are left to the handshake.
- Capabilities.OfferedExactly: SASL mechanism names are assumed to be tokens; a name with a blank in it reads as two.
- Server.Conn.StreamBody: the connection's writer buffers everything and its failures show when it is flushed; failures at a given byte are modelled for the stuffing writer itself.
- Server.Conn.HandlePass: a session that takes the connection over answers `Hijacked`; the call of Hijack inside the session, its own errors, and a Login that fails after it are not modelled.
- Framing.OneResponsePerCommand: configured capabilities and SASL mechanism names are assumed to have no LF and no leading dot, because those lines are written as they are.
- Concurrent.OwnResults: a turn of one connection is one action of the system; the session calls within a turn are at most one, so that nothing finer is lost.
- Budget.ErrorBudget: the product of error count and delay is an integer without overflow, and a sleep is what is requested, not what passes.
- Sizes: sums of message sizes are assumed to fit 64 bits where the client parses them.
- The unknown-command handler, the hooks for commands, panics and timeouts, logging and XCLIENT: callbacks and plumbing.
- Sockets, TLS, deadlines, contexts, the listener, panic recovery and goroutines: input and output; a timeout is one of the outcomes of reading a line.
- The override of TLS detection: the starting security layer of a connection is a parameter.
- The constant-time password comparison: timing is not a functional property; what it decides is modelled.
- The client's CAPA, STLS and dialling: they add no parsing that the calls modelled do not have.
