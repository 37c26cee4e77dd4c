# web_shell: the WebSocket command interpreter, modelled in Dafny

The backend of web_shell gives a browser terminal a small remote shell over a
WebSocket. Each connection runs `handle_socket` in `backend/src/ws_logic.rs`:

- it sends a welcome text and the starting directory;
- it then handles text messages one at a time.

Each text message is trimmed and passed to `process_command` together with
the connection's current directory. `process_command` returns a response text
and the next directory. The session sends the response through
`clean_output`, the character filter for the terminal emulator, but only when
the response is not empty. It then sends a directory update, but only when the
directory changed.

The model has six modules:

- `Wrappers`: an `Option` type.
- `Strings`: what the interpreter uses of Rust's string operations, namely
  `trim` with the Unicode White_Space set, `to_lowercase`, `join`, and a
  `Split` that is the inverse of `join`.
- `Paths`: Unix `Path` behaviour, namely `is_absolute`, `join` (that is,
  `PathBuf::push`), `components`, and `PathBuf` equality. `PathBuf` equality
  compares components, so `/tmp/` and `/tmp` are the same path.
- `Sanitizer`: `clean_output`.
- `Commands`: `process_command`.
  - The function `Dispatch` specifies it.
  - The method `ProcessCommand` follows the source step by step, including
    the loop that adds the arguments of `ls`/`whoami` one at a time.
  - The ensures of `ProcessCommand` ties it to `Dispatch`.
  - Lemmas state, verb by verb, what `Dispatch` replies.
- `Sessions`: the receive loop.
  - `Next` and `Replay` are the pure state machine: directory, sent messages,
    and whether the loop still runs.
  - The class `Session` keeps these in mutable fields. Its constructor sends
    the opening messages. `Turn` handles one message and `Serve` runs the
    loop. Each is proved against `Next` or `Replay`.
  - `InSync` says the client's view agrees with the session: the last
    directory update names the session's directory, and every output sent is
    non-empty, clean text. `InSync` is proved to hold from the opening on and
    after every turn.

The collaborators of `process_command` are fields of a `World` value:

- the shell lexer (`shlex::split`): a `None` result is the lexer's failure;
- `canonicalize`, `is_dir` and `dirs::home_dir`;
- running a program and waiting for it. The result is a `ProcessOutcome`:
  `Success(stdout)`, `NonZero(stderr)`, `NotFound` or `OtherErr(message)`.

Each text message carries the `World` that holds while it is handled. The
starting directory (`std::env::current_dir()`, which may fail) is a parameter
of the constructor.

Some behaviour one might expect of a remote shell is absent from the code,
and so from the model:

- There is no sandbox root. `cd` accepts any absolute path and any directory
  the file system canonicalizes to. The starting directory is the process's
  working directory, or `/`.
- There is no denial of `sudo`, `su` or `passwd`. Those words get the unknown
  command reply.
- The response is not one object with two optional fields. Output and
  directory update are two separate messages.
- `clean_output` removes ESC like every other C0 control character. As a
  result, the colour codes of the `help` text reach the terminal as the plain
  text `[32m` and `[0m` (`HelpLosesEscape`, `CleanHelpLine`,
  `HelpSentWithoutEscape`).

## Model

| member | source | states |
|---|---|---|
| Sanitizer.IsAllowed | backend/src/ws_logic.rs:27-30 | the filter's test, clause by clause: printable ASCII, LF, CR, or a character from U+0080 on other than DEL |
| Sanitizer.AllowedIffNotControl | backend/src/ws_logic.rs:24-31 | the filter keeps a character exactly when it is not a C0 control other than LF and CR and is not DEL; TAB, ESC and DEL are removed |
| Sanitizer.CleanOutput | backend/src/ws_logic.rs:22-33 | every character of the result is allowed, and the result is never longer than the input |
| Sanitizer.CleanOutputIsSubsequence | backend/src/ws_logic.rs:23-32 | the result occurs in the input in order |
| Sanitizer.CleanOutputCounts | backend/src/ws_logic.rs:23-32 | each allowed character occurs in the result as often as in the input; other characters do not occur |
| Sanitizer.CleanOutputAppend | backend/src/ws_logic.rs:23-32 | cleaning a concatenation is the concatenation of the cleaned parts |
| Sanitizer.CleanOutputFixpoint | backend/src/ws_logic.rs:22-33 | a text is unchanged by cleaning if and only if all its characters are allowed |
| Sanitizer.CleanOutputIdempotent | backend/src/ws_logic.rs:22-33 | cleaning twice equals cleaning once |
| Sanitizer.CleanOutputNonEmpty | backend/src/ws_logic.rs:22-33 | a text holding an allowed character does not clean to the empty text |
| Strings.IsWhitespace | backend/src/ws_logic.rs:72 | the Unicode White_Space characters that `str::trim` removes |
| Strings.TrimStart | backend/src/ws_logic.rs:72 | the result is a suffix of the input, only whitespace was removed, and it does not start with whitespace |
| Strings.TrimEnd | backend/src/ws_logic.rs:72 | the result is a prefix of the input, only whitespace was removed, and it does not end with whitespace |
| Strings.Trim | backend/src/ws_logic.rs:72 | the trimmed line is no longer than the message and neither starts nor ends with whitespace |
| Strings.TrimIsSlice | backend/src/ws_logic.rs:72 | the trimmed line is the slice of the message left after cutting off only whitespace before it and only whitespace after it |
| Strings.TrimFixpoint | backend/src/ws_logic.rs:72 | trimming leaves a text unchanged if and only if it is empty or has no whitespace at either end |
| Strings.TrimIdempotent | backend/src/ws_logic.rs:72 | trimming twice equals trimming once |
| Strings.LowerChar | backend/src/ws_logic.rs:137 | a lower-cased character is never an ASCII capital, and a lower-case ASCII letter comes only from its capital or itself |
| Strings.Lower | backend/src/ws_logic.rs:137 | lower-casing keeps the length and lower-cases each character in place |
| Strings.LowerEqualIff | backend/src/ws_logic.rs:137 | two words lower-case to the same word if and only if they agree character by character up to case |
| Strings.LowerIdempotent | backend/src/ws_logic.rs:137 | lower-casing twice equals lower-casing once |
| Strings.Join | backend/src/ws_logic.rs:228 | `[&str]::join`: the words with the separator between consecutive ones; `Split` inverts it (`SplitJoin`, `JoinSplit`) |
| Strings.Split | backend/src/ws_logic.rs:228 | splitting yields at least one piece and no piece contains the separator |
| Strings.SplitAppend | backend/src/ws_logic.rs:228 | splitting around one separator is splitting each side |
| Strings.SplitWithoutSeparator | backend/src/ws_logic.rs:228 | a word without the separator splits into itself |
| Strings.SplitJoin | backend/src/ws_logic.rs:228 | words without the separator, joined by it, split back into the same words |
| Strings.JoinSplit | backend/src/ws_logic.rs:228 | joining the pieces of a split with the separator gives back the text |
| Paths.IsAbsolute | backend/src/ws_logic.rs:167 | a path is absolute when it starts with the separator |
| Paths.JoinPath | backend/src/ws_logic.rs:170 | `Path::join` on Unix: an absolute argument replaces the base; otherwise a separator is inserted unless the base is empty or already ends with one |
| Paths.Components | backend/src/ws_logic.rs:87 | `Path::components` on Unix: a root or a leading `.`, then the pieces between separators without empty pieces and `.` |
| Paths.SamePath | backend/src/ws_logic.rs:87 | `PathBuf` equality: two paths are equal when their components are |
| Paths.JoinPathExtends | backend/src/ws_logic.rs:167-171 | joining a relative path keeps the base as prefix and the relative path as suffix, and keeps an absolute base absolute |
| Paths.Segment | backend/src/ws_logic.rs:87 | one piece between separators contributes at most one component |
| Paths.Normalize | backend/src/ws_logic.rs:87 | the components of the pieces after the lead are only `..` and proper names |
| Paths.NormalizeAppend | backend/src/ws_logic.rs:87 | the components of concatenated pieces are the concatenated components |
| Paths.TrailingSeparatorIgnored | backend/src/ws_logic.rs:87 | a path with a trailing separator compares equal to the path without it |
| Paths.JoinPathComponents | backend/src/ws_logic.rs:167-171 | joining a non-empty directory with a relative path appends the relative path's pieces, with empty pieces and `.` dropped |
| Paths.LeadAppend | backend/src/ws_logic.rs:87 | further pieces after a path's pieces add their own components after the path's |
| Commands.Resolve | backend/src/ws_logic.rs:164-171 | the path `cd` tries: an absolute target as given, a relative one joined to the current directory |
| Commands.ChangeDirectory | backend/src/ws_logic.rs:155-190 | the `cd` branch: home directory or its error for no argument; otherwise the canonical directory, or the not-a-directory or invalid-path error with the directory kept |
| Commands.DescribeOutcome | backend/src/ws_logic.rs:202-225 | the response of `ls`/`whoami` for each of the four outcomes of running the program |
| Commands.Execute | backend/src/ws_logic.rs:143-241 | the `match` on the lower-cased command word, one case per arm, with the unknown-command arm last |
| Commands.Dispatch | backend/src/ws_logic.rs:121-243 | `process_command` as a function: the two early exits, then `Execute` on the lower-cased first word and the remaining words |
| Commands.ProcessCommand | backend/src/ws_logic.rs:121-243 | the response and new directory are exactly those of `Dispatch` for the line, directory and collaborators; the `ls`/`whoami` loop passes the arguments in order |
| Commands.EarlyExits | backend/src/ws_logic.rs:122-135 | a lexer failure gives the fixed format error, and a line without words gives the empty response; the directory stays in both cases |
| Commands.DispatchWords | backend/src/ws_logic.rs:131-143 | a line the lexer splits into words is handled by the branch of its lower-cased first word, with the remaining words as arguments |
| Commands.VerbIsCaseInsensitive | backend/src/ws_logic.rs:137-143 | first words that differ only in case give the same reply to a builtin and the same directory in every case |
| Commands.ExecuteIgnoresLine | backend/src/ws_logic.rs:143-241 | only the unknown-command reply depends on the line itself |
| Commands.UnknownCommandReply | backend/src/ws_logic.rs:240 | a word outside the builtins gets "Unknown command: " plus the whole trimmed line and a line end, and the directory stays |
| Commands.PwdReply | backend/src/ws_logic.rs:191-193 | `pwd` replies with the current directory and a line end whatever its arguments, and stays |
| Commands.HelpReply | backend/src/ws_logic.rs:144-154 | `help` replies with the help text whatever its arguments, and stays |
| Commands.FixedReplies | backend/src/ws_logic.rs:231-239 | `about`, `birthday`, `heyeuuu`, `creeper` and the empty word reply with their fixed texts, and stay |
| Commands.EchoReply | backend/src/ws_logic.rs:227-230 | `echo` replies with its arguments joined by single spaces plus a line end, and stays; arguments without spaces can be recovered from the printed text |
| Commands.ResolveTarget | backend/src/ws_logic.rs:164-171 | an absolute target is used as given; for a non-empty current directory, a relative one extends the directory's components by the target's pieces, with empty pieces and `.` dropped |
| Commands.CdWithoutArgument | backend/src/ws_logic.rs:156-162 | bare `cd` moves silently to the home directory, or reports that there is none and stays |
| Commands.CdWithArgument | backend/src/ws_logic.rs:163-189 | `cd p` succeeds with an empty response if and only if `p` canonicalizes to a directory, and then moves there; otherwise it reports the invalid path or the non-directory and stays |
| Commands.CdUsesFirstArgumentOnly | backend/src/ws_logic.rs:164 | arguments after the first do not change the reply of `cd` |
| Commands.DirectoryChangesOnlyByCd | backend/src/ws_logic.rs:140-241 | the directory changes only through `cd`, silently, and only to the home directory or to a canonicalized directory |
| Commands.ProgramReply | backend/src/ws_logic.rs:194-226 | `ls`/`whoami` run the program of that name in the current directory with the arguments in order; the four outcomes map to cleaned stdout, cleaned error text, not found, and failed to execute; the directory stays and program output is already clean |
| Commands.OutcomeSurvivesCleaning | backend/src/ws_logic.rs:202-225 | a non-empty program reply does not clean to the empty text |
| Commands.EdgeSurvives | backend/src/ws_logic.rs:22-33 | a text whose first or last character is allowed does not clean to the empty text |
| Commands.ExecuteSurvivesCleaning | backend/src/ws_logic.rs:143-241 | no branch produces a non-empty response that cleans to the empty text |
| Commands.RepliesSurviveCleaning | backend/src/ws_logic.rs:121-243 | no command line produces a non-empty response that cleans to the empty text |
| Commands.CleanColourCodes | backend/src/ws_logic.rs:146-152 | the colour codes of the help text clean to `[32m` and `[0m` |
| Commands.CleanHelpLine | backend/src/ws_logic.rs:146-152 | a help line cleans to its text with the ESC of both colour codes removed |
| Commands.HelpLosesEscape | backend/src/ws_logic.rs:144-154 | the help text contains ESC, and the cleaned help text does not |
| Sessions.Emitted | backend/src/ws_logic.rs:74-99 | what one text turn sends: the cleaned response if the response is not empty, then the new directory if it is a different path |
| Sessions.Opening | backend/src/ws_logic.rs:39-64 | the state after the opening: the welcome text, then the starting directory or `/` |
| Sessions.TextTurn | backend/src/ws_logic.rs:72-99 | a text turn with a given reply: the directory is replaced only by a different path, and the outbox gains `Emitted` |
| Sessions.Next | backend/src/ws_logic.rs:66-117 | one turn of the receive loop for each kind of message, and nothing once the loop has ended |
| Sessions.Replay | backend/src/ws_logic.rs:66-117 | the receive loop over a stream of messages, stopping at its end or once the session is closed |
| Sessions.OpeningInSync | backend/src/ws_logic.rs:39-64 | after the welcome text and the starting directory, the client is in sync with the session |
| Sessions.TextTurnPreservesInSync | backend/src/ws_logic.rs:72-99 | a text turn keeps the client in sync |
| Sessions.NextPreservesInSync | backend/src/ws_logic.rs:66-117 | every turn of the loop keeps the client in sync |
| Sessions.ReplayPreservesInSync | backend/src/ws_logic.rs:66-117 | any run of the loop keeps the client in sync |
| Sessions.LastCwdUpdateAppend | backend/src/ws_logic.rs:87-99 | the last directory update of a longer outbox is the one in the new part if there is one, else the earlier one |
| Sessions.ControlMessages | backend/src/ws_logic.rs:101-115 | close and transport errors end the loop and change nothing else; pongs and other kinds of message change nothing |
| Sessions.ReplayStopsAtClose | backend/src/ws_logic.rs:104-115 | messages after a close or an error are never handled |
| Sessions.CdToCurrentDirectoryIsSilent | backend/src/ws_logic.rs:72-99 | a `cd` whose target canonicalizes to a directory that is the same path as the current one (component-wise) sends nothing and changes nothing |
| Sessions.SilentTurn | backend/src/ws_logic.rs:74-99 | an empty response with the same path sends nothing and changes nothing |
| Sessions.StayingTurn | backend/src/ws_logic.rs:74-99 | a turn that stays sends only the cleaned response, and only if the response is not empty |
| Sessions.TurnWithReply | backend/src/ws_logic.rs:69-72 | a text turn of an open session is the text step on what the trimmed line dispatches to |
| Sessions.PwdTurn | backend/src/ws_logic.rs:72-99 | a `pwd` turn sends the cleaned directory line and nothing else |
| Sessions.ListingSentOnce | backend/src/ws_logic.rs:72-85 | successful `ls` output reaches the client cleaned exactly once, and the directory stays |
| Sessions.HelpSentWithoutEscape | backend/src/ws_logic.rs:72-85 | the help text reaches the client without ESC, and the directory stays |
| Sessions.Session.constructor | backend/src/ws_logic.rs:39-64 | the new session is the opening state (welcome, then starting directory or `/`) and is in sync |
| Sessions.Session.Turn | backend/src/ws_logic.rs:66-117 | one receive step changes the session exactly as `Next` does and keeps it in sync |
| Sessions.Session.Deliver | backend/src/ws_logic.rs:74-99 | the response is sent if not empty, then the new directory if it is a different path, which also becomes current |
| Sessions.Session.Serve | backend/src/ws_logic.rs:66-117 | the receive loop ends in the state `Replay` gives and keeps the session in sync |

## Left out

- The async transport: splitting the socket, `send(...).await`, and the
  `expect`/`unwrap` panics when a send fails. Sending is appending to the
  outbox; a failed send is not modelled.
- `tracing` logging and the peer name, which only feed the logs.
- The JSON encoding of `WebSocketResponse`. The two variants are kept as a
  datatype. Under `#[serde(untagged)]` both serialise as a bare string.
- The internals of `shlex::split`. Its result is an input of the model.
- The real file system and processes: `canonicalize`, `is_dir`,
  `dirs::home_dir`, `std::env::current_dir` and `Command::output`. They are
  fields of `World` or constructor parameters.
- `String::from_utf8_lossy`. The outputs of the programs are text already.
- `Path::display` is the path's text. Paths are strings, and no path in the
  model is invalid UTF-8.
- Strings.LowerChar: `to_lowercase` is modelled for ASCII letters only.
  - Every builtin word is ASCII and contains no `k`. The Kelvin sign is the
    only non-ASCII character that lower-cases to an ASCII letter, and it
    lower-cases to `k`. U+0130 (capital I with dot above) lower-cases to
    `i` followed by the combining dot U+0307; that combining dot is not
    ASCII, so such a word is no builtin either. So the ASCII-only model
    selects the same branch as Rust for every word.
  - The unknown-command reply uses the line, not the lower-cased word.
  - The lower-cased word is still visible in the `ls`/`whoami` messages, but
    only after that word is `ls` or `whoami`.
- Sessions.Session.Turn: it requires an open session. Once the loop has
  ended, `handle_socket` returns and no further turn happens.
- `backend/src/main.rs` (server start-up, routing, static files) and
  `backend/src/handlers.rs` (the WebSocket upgrade, `hello_world`,
  `handle_404`): they are framework wiring. `AppState` is not part of this
  model.
