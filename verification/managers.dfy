/** The administrative client (src/Manager.php): one connection to one
    server speaking the line-based admin protocol. The socket is left out;
    what the manager writes is recorded as a log of lines, and what it
    reads is given as the lines `fgets` would return, each with its
    newline. */
module Managers {
  import opened Errors
  import opened Strings
  import opened OrderedMaps
  import ServerLists

  // ---------------------------------------------------------------------
  // The address

  /** The port the constructor hands to `fsockopen`: the default, or the
      text written after the first ':' as it stands. */
  datatype Port = DefaultPort | PortText(text: string)

  datatype Endpoint = Endpoint(host: string, port: Port)

  /** The port number `fsockopen` receives: the default, or the port
      text coerced to its `int $port` parameter, `None` where the
      coercion raises a TypeError. */
  function PortNumber(p: Port): (r: Option<int>)
    ensures p.DefaultPort? ==> r == Some(ServerLists.DEFAULT_PORT)
    ensures p.PortText? ==> r == ParseInt(p.text)
    ensures r.Some? ==> PHP_INT_MIN <= r.value <= PHP_INT_MAX
  {
    match p
    case DefaultPort => Some(ServerLists.DEFAULT_PORT)
    case PortText(t) => ParseInt(t)
  }

  /** The host and port of `new Manager($server)`: `strpos` finds the
      first ':' and is false both when there is none and when it is the
      first character; otherwise `explode(':')` gives the host and the
      port as its first two pieces. */
  function ParseServer(server: string): (r: Endpoint)
    ensures r.port.DefaultPort? <==> ':' !in server || server[0] == ':'
    ensures r.port.DefaultPort? ==> r.host == server
    ensures r.port.PortText? ==>
      && |r.host| > 0 && ':' !in r.host && ':' !in r.port.text
      && (server == r.host + ":" + r.port.text || StartsWith(server, r.host + ":" + r.port.text + ":"))
  {
    var at := IndexOf(server, ':');
    if at.Some? && at.value > 0 then
      var parts := Split(server, ":");
      ColonSplit(server, at.value);
      Endpoint(parts[0], PortText(parts[1]))
    else
      assert ':' in server ==> at == Some(0);
      Endpoint(server, DefaultPort)
  }

  /** `explode(':')` at the first ':' gives the text before it and the
      first piece of the text after it. */
  lemma ColonSplit(server: string, i: nat)
    requires i < |server| && server[i] == ':' && ':' !in server[..i]
    ensures |Split(server, ":")| >= 2
    ensures Split(server, ":")[0] == server[..i] && ':' !in Split(server, ":")[1]
    ensures var parts := Split(server, ":");
      server == parts[0] + ":" + parts[1] || StartsWith(server, parts[0] + ":" + parts[1] + ":")
  {
    var head := server[..i];
    var rest := server[i + 1..];
    assert server == head + [':'] + rest;
    SplitAfterPiece(head, ':', rest);
    assert Split(server, ":") == [head] + Split(rest, ":");
    FirstPiece(rest, ':');
    var p := Split(rest, ":")[0];
    if rest != p {
      StartsWithAfter(head + ":", rest, p + ":");
      assert head + ":" + p + ":" == (head + ":") + (p + ":");
    }
  }

  /** A common prefix keeps a prefix relation. */
  lemma StartsWithAfter(a: string, b: string, c: string)
    requires StartsWith(b, c)
    ensures StartsWith(a + b, a + c)
  {
    assert (a + b)[..|a + c|] == a + b[..|c|];
  }

  /** The first piece of a split is free of the delimiter and is either
      the whole string or followed by the delimiter. */
  lemma FirstPiece(s: string, c: char)
    ensures c !in Split(s, [c])[0]
    ensures Split(s, [c])[0] == s || StartsWith(s, Split(s, [c])[0] + [c])
  {
    var parts := Split(s, [c]);
    SplitPiecesFree(s, c);
    JoinSplit(s, [c]);
    if |parts| > 1 {
      assert Join(parts, [c]) == parts[0] + [c] + Join(parts[1..], [c]);
      assert s[..|parts[0]| + 1] == parts[0] + [c];
    }
  }

  /** Writing "host:port" and parsing it gives the host and port back. */
  lemma ParseServerRoundTrip(host: string, port: string)
    requires |host| > 0 && ':' !in host && ':' !in port
    ensures ParseServer(host + ":" + port) == Endpoint(host, PortText(port))
  {
    var s := host + ":" + port;
    assert s == host + [':'] + port;
    assert s[|host|] == ':';
    var at := IndexOf(s, ':');
    assert at == Some(|host|) by {
      assert ':' in s[..|host| + 1];
      assert s[..|host|] == host;
    }
    assert s[|host| + 1..] == port;
    SplitAfterPiece(host, ':', port);
    SplitWithoutDelimiter(port, ':');
  }

  /** A ':' in first position is not a separator: the whole string is the
      host and the default port applies. */
  lemma LeadingColonIsHost(rest: string)
    ensures ParseServer(":" + rest) == Endpoint(":" + rest, DefaultPort)
  {
  }

  // ---------------------------------------------------------------------
  // Commands and replies

  /** The manager's state: `$shutdown` and the lines written so far. */
  datatype Manager = Manager(shutdown: bool, sent: seq<string>)

  /** `new Manager($server)`: the address to connect to and, when the
      connection opens (`connected`, the outcome of `fsockopen`), a manager
      that has not shut the server down and has written nothing. Port text
      that does not coerce to `fsockopen`'s `int $port` raises a TypeError
      before any connection is tried. */
  function NewManager(server: string, connected: bool): (r: Result<(Endpoint, Manager)>)
    ensures PortNumber(ParseServer(server).port).None? ==>
      r == Err(PortNotInteger(ParseServer(server).port.text))
    ensures PortNumber(ParseServer(server).port).Some? ==> (r.Err? <==> !connected)
    ensures PortNumber(ParseServer(server).port).Some? && r.Err? ==>
      r.error == CouldNotConnect(ParseServer(server).host)
    ensures r.Ok? ==> r.value.0 == ParseServer(server) && !r.value.1.shutdown && r.value.1.sent == []
  {
    var at := ParseServer(server);
    if PortNumber(at.port).None? then Err(PortNotInteger(at.port.text))
    else if !connected then Err(CouldNotConnect(at.host))
    else Ok((at, Manager(false, [])))
  }

  /** An address without a port, or with one that coerces, reaches
      `fsockopen`; "host:abc" and "host:" never do. */
  lemma NewManagerPort(host: string, port: string, connected: bool)
    requires |host| > 0 && ':' !in host && ':' !in port
    ensures ParseInt(port).None? ==>
      NewManager(host + ":" + port, connected) == Err(PortNotInteger(port))
    ensures ParseInt(port).Some? ==>
      (NewManager(host + ":" + port, connected).Ok? <==> connected)
    ensures NewManager(host, connected).Ok? <==> connected
  {
    ParseServerRoundTrip(host, port);
  }

  /** A manager after an operation, and what the operation returned. */
  datatype Answer<T> = Answer(manager: Manager, value: T)

  /** `sendCommand($cmd)`: refused once the server has been shut down,
      otherwise the command is written followed by CR LF. */
  function SendCommand(m: Manager, cmd: string): (r: Result<Manager>)
    ensures r.Err? <==> m.shutdown
    ensures r.Err? ==> r.error == ServerIsShutDown
    ensures r.Ok? ==> !r.value.shutdown && |r.value.sent| == |m.sent| + 1 && r.value.sent[..|m.sent|] == m.sent
    ensures r.Ok? ==> Unframe(r.value.sent[|m.sent|]) == Some(cmd)
  {
    if m.shutdown then Err(ServerIsShutDown)
    else
      var line := cmd + "\r\n";
      assert line[..|cmd|] == cmd && line[|cmd|..] == "\r\n";
      Ok(Manager(m.shutdown, m.sent + [line]))
  }

  /** The command a written line carries, when it ends with CR LF. */
  function Unframe(line: string): Option<string> {
    if |line| >= 2 && line[|line| - 2..] == "\r\n" then Some(line[..|line| - 2]) else None
  }

  /** What was written is the command and its line end, and nothing
      else. */
  lemma SendCommandWritesFrame(m: Manager, cmd: string)
    requires !m.shutdown
    ensures SendCommand(m, cmd).value.sent == m.sent + [cmd + "\r\n"]
  {
    var r := SendCommand(m, cmd).value;
    var line := r.sent[|m.sent|];
    assert line == line[..|line| - 2] + line[|line| - 2..];
    assert r.sent == r.sent[..|m.sent|] + [line];
  }

  // ---------------------------------------------------------------------
  // Error replies

  /** The `$i`-th element of a `list(...) = explode(...)`: a missing one is
      null, which becomes "" where it is used as a string. */
  function Token(parts: seq<string>, i: nat): string {
    if i < |parts| then parts[i] else ""
  }

  /** Whether the line is an error reply: after `trim`, it starts with
      "ERR". */
  predicate IsErrorLine(data: string) {
    StartsWith(Trim(data), "ERR")
  }

  /** The error code and the message of an error line: its second and
      third space-separated words. */
  function ErrorWords(data: string): (r: (string, string))
    ensures ' ' !in r.0 && ' ' !in r.1
  {
    var parts := Split(Trim(data), " ");
    SplitPiecesFree(Trim(data), ' ');
    (Token(parts, 1), Token(parts, 2))
  }

  /** `checkForError($data)` with the error the authors meant to raise:
      an error line yields its code and message. */
  function CheckForError(data: string): (r: Option<Error>)
    ensures r.Some? <==> IsErrorLine(data)
    ensures r.Some? ==> r.value.ServerReportedError?
    ensures r.Some? ==> ' ' !in r.value.errorCode && ' ' !in r.value.errorMessage
  {
    if IsErrorLine(data) then
      var (code, message) := ErrorWords(data);
      Some(ServerReportedError(code, message))
    else None
  }

  /** An error line's code is its second word and its message only its
      third: any further words are dropped. */
  lemma CheckForErrorReadsWords(data: string, code: string, message: string, more: seq<string>)
    requires ' ' !in code && ' ' !in message
    requires forall k :: 0 <= k < |more| ==> ' ' !in more[k]
    requires Trim(data) == Join(["ERR", code, message] + more, " ")
    ensures CheckForError(data) == Some(ServerReportedError(code, message))
  {
    var parts := ["ERR", code, message] + more;
    assert Join(parts, " ") == "ERR" + " " + Join(parts[1..], " ");
    assert StartsWith(Trim(data), "ERR");
    SplitJoin(parts, ' ');
  }

  /** The characters `urlencode` leaves as they are. */
  predicate UrlSafe(c: char) {
    IsDigit(c) || ('a' <= c <= 'z') || ('A' <= c <= 'Z') || c == '-' || c == '_' || c == '.'
  }

  /** The longest prefix of `s` that `urlencode` copies unchanged; in a
      code (which holds no space) the next encoded character is a '%'. */
  function UrlSafePrefix(s: string): (r: string)
    ensures |r| <= |s| && r == s[..|r|]
    ensures forall k :: 0 <= k < |r| ==> UrlSafe(r[k])
    ensures |r| < |s| ==> !UrlSafe(s[|r|])
  {
    if |s| > 0 && UrlSafe(s[0]) then
      var r := [s[0]] + UrlSafePrefix(s[1..]);
      assert s[..|r|] == [s[0]] + s[1..][..|r| - 1];
      r
    else ""
  }

  /** Whether PHP accepts the url-encoded code for `Exception`'s
      `int $code` parameter: the encoding starts with the code's url-safe
      prefix and continues with a '%', which cannot continue a number, so
      the coercion reads the number that prefix starts with. */
  predicate CodeCoerces(code: string) {
    ParseInt(UrlSafePrefix(code)).Some?
  }

  /** A code that is a rendered integer PHP can hold coerces. */
  lemma IntegerCodeCoerces(n: int)
    requires PHP_INT_MIN <= n <= PHP_INT_MAX
    ensures CodeCoerces(IntToString(n))
  {
    var code := IntToString(n);
    assert forall k :: 0 <= k < |code| ==> UrlSafe(code[k]);
    UrlSafeWhole(code);
    ParseIntToString(n);
  }

  lemma {:induction false} UrlSafeWhole(s: string)
    requires forall k :: 0 <= k < |s| ==> UrlSafe(s[k])
    ensures UrlSafePrefix(s) == s
    decreases |s|
  {
    if |s| > 0 {
      UrlSafeWhole(s[1..]);
    }
  }

  /** `checkForError($data)` as written: the exception is constructed with
      the code as its `int $code`, so a code PHP cannot coerce raises a
      TypeError instead. */
  function CheckForErrorAsWritten(data: string): (r: Option<Error>)
    ensures r.Some? <==> IsErrorLine(data)
    ensures r.Some? ==> (r.value.ServerReportedError? <==> CodeCoerces(ErrorWords(data).0))
    ensures r.Some? && !r.value.ServerReportedError? ==> r.value == ErrorCodeNotInteger(ErrorWords(data).0)
  {
    if IsErrorLine(data) then
      var (code, message) := ErrorWords(data);
      if CodeCoerces(code) then Some(ServerReportedError(code, message))
      else Some(ErrorCodeNotInteger(code))
    else None
  }

  /** A well-formed error line whose code does not start like a number
      makes the source raise a TypeError instead of its own exception. */
  lemma WordCodeRaisesTypeError(data: string, code: string, message: string, more: seq<string>)
    requires ' ' !in code && ' ' !in message && !CodeCoerces(code)
    requires forall k :: 0 <= k < |more| ==> ' ' !in more[k]
    requires Trim(data) == Join(["ERR", code, message] + more, " ")
    ensures CheckForErrorAsWritten(data) == Some(ErrorCodeNotInteger(code))
  {
    CheckForErrorReadsWords(data, code, message, more);
  }

  /** A code that starts with a letter, as gearmand's textual codes do,
      does not coerce. */
  lemma LetterCodeNotCoerced(code: string)
    requires |code| > 0 && ('A' <= code[0] <= 'Z' || 'a' <= code[0] <= 'z')
    ensures !CodeCoerces(code)
  {
    var prefix := UrlSafePrefix(code);
    assert prefix[0] == code[0];
    NoNumberAtOtherChar(prefix);
  }

  /** The reply gearmand gives to an unknown command is such a line. */
  lemma UnknownCommandRaisesTypeError()
    ensures CheckForErrorAsWritten("ERR" + " " + "UNKNOWN_COMMAND" + " " + "Unknown+server+command" + "\n")
         == Some(ErrorCodeNotInteger("UNKNOWN_COMMAND"))
  {
    LetterCodeLineRaises("UNKNOWN_COMMAND", "Unknown+server+command");
  }

  /** An error line `ERR <code> <message>` whose code starts with a letter
      raises a TypeError. */
  lemma LetterCodeLineRaises(code: string, message: string)
    requires ' ' !in code && ' ' !in message
    requires |code| > 0 && ('A' <= code[0] <= 'Z' || 'a' <= code[0] <= 'z')
    requires |message| > 0 && !IsTrimChar(message[|message| - 1])
    ensures CheckForErrorAsWritten("ERR" + " " + code + " " + message + "\n") == Some(ErrorCodeNotInteger(code))
  {
    var line := "ERR" + " " + code + " " + message;
    var data := line + "\n";
    assert line[|line| - 1] == message[|message| - 1];
    TrimLine(line);
    JoinThree("ERR", code, message, " ");
    assert ["ERR", code, message] + [] == ["ERR", code, message];
    LetterCodeNotCoerced(code);
    WordCodeRaisesTypeError(data, code, message, []);
  }


  /** The two readings of an error line agree exactly on the codes PHP
      can coerce. */
  lemma CheckForErrorAgreesOnNumericCodes(data: string)
    ensures CheckForErrorAsWritten(data) == CheckForError(data) <==>
      !IsErrorLine(data) || CodeCoerces(ErrorWords(data).0)
  {
  }

  // ---------------------------------------------------------------------
  // Multi-line replies

  /** The lines `$ret .= $data` accumulates, in order. */
  function Concat(lines: seq<string>): string {
    if |lines| == 0 then "" else lines[0] + Concat(lines[1..])
  }

  /** A line that neither ends the reply nor reports an error. */
  predicate Plain(line: string) {
    line != ".\n" && CheckForError(line).None?
  }

  /** `recvCommand()`: read lines, raising on an error line, until the
      line ".\n", and return the lines before it. A connection that ends
      first makes the source loop for ever; here the lines given run out
      with `Unterminated`. */
  function RecvCommand(lines: seq<string>): (r: Result<string>)
    ensures r.Err? ==> r.error == Unterminated || r.error.ServerReportedError?
    decreases |lines|
  {
    if |lines| == 0 then Err(Unterminated)
    else
      match CheckForError(lines[0])
      case Some(e) => Err(e)
      case None =>
        if lines[0] == ".\n" then Ok("")
        else
          var rest :- RecvCommand(lines[1..]);
          Ok(lines[0] + rest)
  }

  /** The terminator is not an error line. */
  lemma DotLineIsNoError()
    ensures CheckForError(".\n").None?
  {
    var dot := ".";
    TrimLine(dot);
    assert dot + "\n" == ".\n";
    assert !StartsWith(dot, "ERR");
  }

  /** A reply whose first `k` lines are plain and whose next line is ".\n"
      is those `k` lines, whatever follows. */
  lemma {:induction false} RecvCommandUpTo(lines: seq<string>, k: nat)
    requires k < |lines| && lines[k] == ".\n"
    requires forall j :: 0 <= j < k ==> Plain(lines[j])
    ensures RecvCommand(lines) == Ok(Concat(lines[..k]))
    decreases k
  {
    DotLineIsNoError();
    if k > 0 {
      assert Plain(lines[0]);
      RecvCommandUpTo(lines[1..], k - 1);
      assert lines[1..][..k - 1] == lines[..k][1..];
    }
  }

  /** The first line that is not plain decides a failure: an error line
      raises its error. */
  lemma {:induction false} RecvCommandStopsAtError(lines: seq<string>, k: nat)
    requires k < |lines| && CheckForError(lines[k]).Some?
    requires forall j :: 0 <= j < k ==> Plain(lines[j])
    ensures RecvCommand(lines) == Err(CheckForError(lines[k]).value)
    decreases k
  {
    if k > 0 {
      assert Plain(lines[0]);
      assert lines[1..][k - 1] == lines[k];
      RecvCommandStopsAtError(lines[1..], k - 1);
    }
  }

  /** Plain lines alone never finish a reply. */
  lemma {:induction false} RecvCommandUnterminated(lines: seq<string>)
    requires forall j :: 0 <= j < |lines| ==> Plain(lines[j])
    ensures RecvCommand(lines) == Err(Unterminated)
    decreases |lines|
  {
    if |lines| > 0 {
      assert Plain(lines[0]);
      RecvCommandUnterminated(lines[1..]);
    }
  }

  /** A line that starts with "ERR" is an error line, whatever follows:
      `trim` cannot reach its first three characters. */
  lemma ErrPrefixIsErrorLine(line: string)
    requires StartsWith(line, "ERR")
    ensures IsErrorLine(line)
  {
    assert line[0] == 'E' && line[2] == 'R';
    assert TrimLeft(line) == line;
    var r := TrimRight(line);
    assert |r| >= 3;
    assert r[..3] == line[..3];
  }

  /** The lines of a reply, each followed by its newline. */
  function Lines(ts: seq<string>): string {
    if |ts| == 0 then "" else ts[0] + "\n" + Lines(ts[1..])
  }

  /** The lines `fgets` returns for a reply of `ts`. */
  function Framed(ts: seq<string>): (r: seq<string>)
    ensures |r| == |ts|
    ensures forall i :: 0 <= i < |ts| ==> r[i] == ts[i] + "\n"
  {
    seq(|ts|, i requires 0 <= i < |ts| => ts[i] + "\n")
  }

  /** What `recvCommand` accumulates from framed lines is their text with
      the newlines. */
  lemma {:induction false} ConcatFramed(ts: seq<string>)
    ensures Concat(Framed(ts)) == Lines(ts)
    decreases |ts|
  {
    if |ts| > 0 {
      ConcatFramed(ts[1..]);
      assert Framed(ts)[1..] == Framed(ts[1..]);
    }
  }

  /** `explode("\n")` undoes the framing of newline-free lines, leaving
      one empty piece after the last newline. */
  lemma {:induction false} SplitLines(ts: seq<string>)
    requires forall i :: 0 <= i < |ts| ==> '\n' !in ts[i]
    ensures Split(Lines(ts), "\n") == ts + [""]
    decreases |ts|
  {
    if |ts| == 0 {
    } else {
      SplitLines(ts[1..]);
      SplitAfterPiece(ts[0], '\n', Lines(ts[1..]));
      assert ts[0] + "\n" + Lines(ts[1..]) == ts[0] + ['\n'] + Lines(ts[1..]);
      assert [ts[0]] + (ts[1..] + [""]) == ts + [""];
    }
  }

  /** A reply of plain framed lines closed by ".\n" is read as their
      text, whatever follows the terminator. */
  lemma RecvFramed(ts: seq<string>, more: seq<string>)
    requires forall i :: 0 <= i < |ts| ==> Plain(ts[i] + "\n")
    ensures RecvCommand(Framed(ts) + [".\n"] + more) == Ok(Lines(ts))
  {
    var lines := Framed(ts) + [".\n"] + more;
    assert lines[..|ts|] == Framed(ts);
    assert forall j :: 0 <= j < |ts| ==> Plain(lines[j]) by {
      forall j | 0 <= j < |ts| ensures Plain(lines[j]) {
        assert lines[j] == ts[j] + "\n";
      }
    }
    RecvCommandUpTo(lines, |ts|);
    ConcatFramed(ts);
  }

  /** The `$i`-th element of a `list(...) = explode(...)` kept as PHP has
      it: a missing element is null. */
  function Field(parts: seq<string>, i: nat): (r: Option<string>)
    ensures r.Some? <==> i < |parts|
    ensures r.Some? ==> r.value == parts[i]
  {
    if i < |parts| then Some(parts[i]) else None
  }

  // ---------------------------------------------------------------------
  // One-line commands

  /** Write one command and read its one-line reply, raising the error
      the reply reports. A closed connection reads as the empty line. */
  function Exchange(m: Manager, cmd: string, reply: string): (r: Result<Manager>)
    ensures r.Err? <==> m.shutdown || IsErrorLine(reply)
    ensures r.Err? ==> r.error == if m.shutdown then ServerIsShutDown else CheckForError(reply).value
    ensures r.Ok? ==> r.value == Manager(false, m.sent + [cmd + "\r\n"])
  {
    var sent :- SendCommand(m, cmd);
    SendCommandWritesFrame(m, cmd);
    match CheckForError(reply)
    case Some(e) => Err(e)
    case None => Ok(sent)
  }

  /** `version()`: the reply line, trimmed. */
  function Version(m: Manager, reply: string): (r: Result<Answer<string>>)
    ensures r.Err? <==> m.shutdown || IsErrorLine(reply)
    ensures r.Ok? ==> r.value.manager == Manager(false, m.sent + ["version" + "\r\n"])
    ensures r.Err? ==> r.error == if m.shutdown then ServerIsShutDown else CheckForError(reply).value
    ensures r.Ok? ==> r.value.value == Trim(reply) && |r.value.value| <= |reply|
  {
    var next :- Exchange(m, "version", reply);
    Ok(Answer(next, Trim(reply)))
  }

  /** A version line is read back as the text it carries. */
  lemma VersionReadsLine(m: Manager, v: string)
    requires !m.shutdown
    requires |v| > 0 && !IsTrimChar(v[0]) && !IsTrimChar(v[|v| - 1]) && !StartsWith(v, "ERR")
    ensures Version(m, v + "\n") == Ok(Answer(Manager(false, m.sent + ["version" + "\r\n"]), v))
  {
    TrimLine(v);
  }

  /** The command `shutdown($graceful)` writes. */
  function ShutdownCommand(graceful: bool): string {
    if graceful then "shutdown graceful" else "shutdown"
  }

  /** `shutdown($graceful)`: the manager counts the server as shut down
      exactly when it answers "OK", and says so. */
  function Shutdown(m: Manager, graceful: bool, reply: string): (r: Result<Answer<bool>>)
    ensures r.Err? <==> m.shutdown || IsErrorLine(reply)
    ensures r.Err? ==> r.error == if m.shutdown then ServerIsShutDown else CheckForError(reply).value
    ensures r.Ok? ==> (r.value.value <==> Trim(reply) == "OK")
    ensures r.Ok? ==> r.value.manager.shutdown == r.value.value
    ensures r.Ok? ==> r.value.manager.sent == m.sent + [ShutdownCommand(graceful) + "\r\n"]
  {
    var next :- Exchange(m, ShutdownCommand(graceful), reply);
    var down := Trim(reply) == "OK";
    Ok(Answer(next.(shutdown := down), down))
  }

  /** The characters `preg_match('/[^a-z0-9_]/i')` accepts in a function
      name. */
  predicate IsNameChar(c: char) {
    'a' <= c <= 'z' || 'A' <= c <= 'Z' || '0' <= c <= '9' || c == '_'
  }

  /** No character outside the class: the empty name passes too. */
  predicate ValidFunctionName(name: string) {
    forall i :: 0 <= i < |name| ==> IsNameChar(name[i])
  }

  /** The command `setMaxQueueSize` writes. */
  function MaxQueueCommand(name: string, size: string): string {
    "maxqueue" + " " + name + " " + size
  }

  /** `setMaxQueueSize($name, $size)`: the size must be numeric and
      the name plain before anything is written (in that order); the
      answer is whether the server replied "OK". */
  function SetMaxQueueSize(m: Manager, name: string, size: string, reply: string): (r: Result<Answer<bool>>)
    ensures !IsNumeric(size) ==> r == Err(QueueSizeNotNumeric(size))
    ensures IsNumeric(size) && !ValidFunctionName(name) ==> r == Err(InvalidFunctionName(name))
    ensures r.Ok? <==> IsNumeric(size) && ValidFunctionName(name) && !m.shutdown && !IsErrorLine(reply)
    ensures IsNumeric(size) && ValidFunctionName(name) && m.shutdown ==> r == Err(ServerIsShutDown)
    ensures IsNumeric(size) && ValidFunctionName(name) && !m.shutdown && IsErrorLine(reply) ==>
      r == Err(CheckForError(reply).value)
    ensures r.Ok? ==> (r.value.value <==> Trim(reply) == "OK")
    ensures r.Ok? ==> r.value.manager == Manager(false, m.sent + [MaxQueueCommand(name, size) + "\r\n"])
  {
    if !IsNumeric(size) then Err(QueueSizeNotNumeric(size))
    else if !ValidFunctionName(name) then Err(InvalidFunctionName(name))
    else
      var next :- Exchange(m, MaxQueueCommand(name, size), reply);
      Ok(Answer(next, Trim(reply) == "OK"))
  }

  /** A size given as a PHP integer is numeric, so only the name can be
      refused. */
  lemma IntegerSizeIsNumeric(n: int)
    ensures IsNumeric(IntToString(n))
  {
    IntToStringIsNumeric(n);
  }

  /** An accepted name has no space, so a size without spaces makes the
      command exactly three words: the server reads back the name and the
      size. */
  lemma MaxQueueCommandWords(name: string, size: string)
    requires ValidFunctionName(name) && ' ' !in size
    ensures Split(MaxQueueCommand(name, size), " ") == ["maxqueue", name, size]
  {
    forall i | 0 <= i < |name| ensures name[i] != ' ' {
      assert IsNameChar(name[i]);
    }
    JoinThree("maxqueue", name, size, " ");
    SplitJoin(["maxqueue", name, size], ' ');
  }

  // ---------------------------------------------------------------------
  // status

  /** One row of `status()`: the three counts as the server wrote them,
      null where the line has fewer fields. */
  datatype StatusRow = StatusRow(inQueue: Option<string>, jobsRunning: Option<string>, capableWorkers: Option<string>)

  type StatusTable = OMap<string, StatusRow>

  /** A status line split on tabs: the function and its row. */
  function StatusOf(t: string): (string, StatusRow) {
    var parts := Split(t, "\t");
    (parts[0], StatusRow(Field(parts, 1), Field(parts, 2), Field(parts, 3)))
  }

  /** The `foreach` of `status()`: empty pieces are skipped and each line
      writes its row under its function, a later line replacing an
      earlier one in the earlier one's place. */
  function StatusRows(acc: StatusTable, ts: seq<string>): (r: StatusTable)
    requires acc.Valid()
    ensures r.Valid()
    decreases |ts|
  {
    if |ts| == 0 then acc
    else if ts[0] == "" then StatusRows(acc, ts[1..])
    else
      var (f, row) := StatusOf(ts[0]);
      StatusRows(acc.Put(f, row), ts[1..])
  }

  /** The table `status()` builds from the reply text. */
  function ParseStatus(res: string): (r: StatusTable)
    ensures r.Valid()
  {
    StatusRows(Empty(), Split(res, "\n"))
  }

  /** `status()`. */
  function Status(m: Manager, lines: seq<string>): (r: Result<Answer<StatusTable>>)
    ensures m.shutdown ==> r == Err(ServerIsShutDown)
    ensures r.Ok? ==> r.value.manager == Manager(false, m.sent + ["status" + "\r\n"])
    ensures !m.shutdown ==> (r.Ok? <==> RecvCommand(lines).Ok?)
    ensures !m.shutdown && r.Err? ==> r.error == RecvCommand(lines).error
    ensures r.Ok? ==> r.value.value.Valid() && r.value.value == ParseStatus(RecvCommand(lines).value)
  {
    var next :- Exchange(m, "status", "");
    var res :- RecvCommand(lines);
    Ok(Answer(next, ParseStatus(res)))
  }

  /** The function a non-empty piece names. */
  predicate NamesFunction(ts: seq<string>, i: int, x: string)
    requires 0 <= i < |ts|
  {
    ts[i] != "" && StatusOf(ts[i]).0 == x
  }

  /** A function is in the table exactly when it was there before or a
      non-empty line names it. */
  lemma {:induction false} StatusListsEveryFunction(acc: StatusTable, ts: seq<string>, x: string)
    requires acc.Valid()
    ensures x in StatusRows(acc, ts).entries <==>
      x in acc.entries || exists i :: 0 <= i < |ts| && NamesFunction(ts, i, x)
    decreases |ts|
  {
    if |ts| > 0 {
      var next := if ts[0] == "" then acc else acc.Put(StatusOf(ts[0]).0, StatusOf(ts[0]).1);
      StatusListsEveryFunction(next, ts[1..], x);
      assert x in next.entries <==> x in acc.entries || NamesFunction(ts, 0, x);
      if exists i :: 0 <= i < |ts[1..]| && NamesFunction(ts[1..], i, x) {
        var i :| 0 <= i < |ts[1..]| && NamesFunction(ts[1..], i, x);
        assert NamesFunction(ts, i + 1, x);
      }
      if exists i :: 0 <= i < |ts| && NamesFunction(ts, i, x) {
        var i :| 0 <= i < |ts| && NamesFunction(ts, i, x);
        if i > 0 {
          assert NamesFunction(ts[1..], i - 1, x);
        }
      }
    }
  }

  /** Lines naming other functions leave a function's row alone. */
  lemma {:induction false} StatusRowsKeep(acc: StatusTable, ts: seq<string>, x: string)
    requires acc.Valid() && x in acc.entries
    requires forall i :: 0 <= i < |ts| ==> !NamesFunction(ts, i, x)
    ensures x in StatusRows(acc, ts).entries && StatusRows(acc, ts).entries[x] == acc.entries[x]
    decreases |ts|
  {
    if |ts| > 0 {
      assert !NamesFunction(ts, 0, x);
      var next := if ts[0] == "" then acc else acc.Put(StatusOf(ts[0]).0, StatusOf(ts[0]).1);
      assert forall i :: 0 <= i < |ts[1..]| ==> !NamesFunction(ts[1..], i, x) by {
        forall i | 0 <= i < |ts[1..]| ensures !NamesFunction(ts[1..], i, x) {
          assert !NamesFunction(ts, i + 1, x);
        }
      }
      StatusRowsKeep(next, ts[1..], x);
    }
  }

  /** The row of a function is that of the last line naming it. */
  lemma {:induction false} StatusLastLineWins(acc: StatusTable, ts: seq<string>, k: nat)
    requires acc.Valid() && k < |ts| && ts[k] != ""
    requires forall j :: k < j < |ts| ==> !NamesFunction(ts, j, StatusOf(ts[k]).0)
    ensures StatusOf(ts[k]).0 in StatusRows(acc, ts).entries
    ensures StatusRows(acc, ts).entries[StatusOf(ts[k]).0] == StatusOf(ts[k]).1
    decreases k
  {
    var x := StatusOf(ts[k]).0;
    var next := if ts[0] == "" then acc else acc.Put(StatusOf(ts[0]).0, StatusOf(ts[0]).1);
    if k == 0 {
      assert forall i :: 0 <= i < |ts[1..]| ==> !NamesFunction(ts[1..], i, x) by {
        forall i | 0 <= i < |ts[1..]| ensures !NamesFunction(ts[1..], i, x) {
          assert !NamesFunction(ts, i + 1, x);
        }
      }
      StatusRowsKeep(next, ts[1..], x);
    } else {
      assert ts[1..][k - 1] == ts[k];
      assert forall j :: k - 1 < j < |ts[1..]| ==> !NamesFunction(ts[1..], j, x) by {
        forall j | k - 1 < j < |ts[1..]| ensures !NamesFunction(ts[1..], j, x) {
          assert !NamesFunction(ts, j + 1, x);
        }
      }
      StatusLastLineWins(next, ts[1..], k - 1);
    }
  }

  /** A trailing empty piece adds nothing. */
  lemma {:induction false} StatusRowsTrailingEmpty(acc: StatusTable, ts: seq<string>)
    requires acc.Valid()
    ensures StatusRows(acc, ts + [""]) == StatusRows(acc, ts)
    decreases |ts|
  {
    if |ts| == 0 {
      assert ([] + [""])[1..] == [];
    } else {
      var next := if ts[0] == "" then acc else acc.Put(StatusOf(ts[0]).0, StatusOf(ts[0]).1);
      StatusRowsTrailingEmpty(next, ts[1..]);
      assert (ts + [""])[1..] == ts[1..] + [""];
    }
  }

  /** A line written as four tab-separated fields is read back as the
      function and its three counts. */
  lemma StatusLineRoundTrip(f: string, inQueue: string, running: string, capable: string)
    requires '\t' !in f && '\t' !in inQueue && '\t' !in running && '\t' !in capable
    ensures StatusOf(f + "\t" + inQueue + "\t" + running + "\t" + capable)
         == (f, StatusRow(Some(inQueue), Some(running), Some(capable)))
  {
    var parts := [f, inQueue, running, capable];
    assert parts[1..] == [inQueue, running, capable];
    JoinThree(inQueue, running, capable, "\t");
    assert Join(parts, "\t") == f + "\t" + inQueue + "\t" + running + "\t" + capable;
    SplitJoin(parts, '\t');
  }

  /** `status()` on a reply of plain lines closed by ".\n" is the table
      those lines build. */
  lemma StatusReadsReply(m: Manager, ts: seq<string>, more: seq<string>)
    requires !m.shutdown
    requires forall i :: 0 <= i < |ts| ==> '\n' !in ts[i] && Plain(ts[i] + "\n")
    ensures Status(m, Framed(ts) + [".\n"] + more)
         == Ok(Answer(Manager(false, m.sent + ["status" + "\r\n"]), StatusRows(Empty(), ts)))
  {
    EmptyLineIsNoError();
    RecvFramed(ts, more);
    SplitLines(ts);
    StatusRowsTrailingEmpty(Empty(), ts);
  }

  /** A function whose name starts with "ERR" makes its own status line
      an error line: `status()` fails on it. */
  lemma StatusStopsAtErrFunction(m: Manager, ts: seq<string>, k: nat, more: seq<string>)
    requires !m.shutdown && k < |ts|
    requires forall i :: 0 <= i < k ==> Plain(ts[i] + "\n")
    requires StartsWith(ts[k], "ERR")
    ensures Status(m, Framed(ts) + [".\n"] + more)
         == Err(ServerReportedError(ErrorWords(ts[k] + "\n").0, ErrorWords(ts[k] + "\n").1))
  {
    var lines := Framed(ts) + [".\n"] + more;
    FramedErrLine(ts, k, more);
    FramedPlainPrefix(ts, k, more);
    RecvCommandStopsAtError(lines, k);
    EmptyLineIsNoError();
  }

  /** The empty line (a closed connection) is not an error line. */
  lemma EmptyLineIsNoError()
    ensures CheckForError("").None?
  {
    assert Trim("") == "";
  }

  lemma FramedErrLine(ts: seq<string>, k: nat, more: seq<string>)
    requires k < |ts| && StartsWith(ts[k], "ERR")
    ensures (Framed(ts) + [".\n"] + more)[k] == ts[k] + "\n"
    ensures CheckForError(ts[k] + "\n").Some?
  {
    assert (ts[k] + "\n")[..3] == ts[k][..3];
    ErrPrefixIsErrorLine(ts[k] + "\n");
  }

  lemma FramedPlainPrefix(ts: seq<string>, k: nat, more: seq<string>)
    requires k <= |ts|
    requires forall i :: 0 <= i < k ==> Plain(ts[i] + "\n")
    ensures forall j :: 0 <= j < k ==> Plain((Framed(ts) + [".\n"] + more)[j])
  {
    var lines := Framed(ts) + [".\n"] + more;
    forall j | 0 <= j < k ensures Plain(lines[j]) {
      assert lines[j] == ts[j] + "\n";
    }
  }

  // ---------------------------------------------------------------------
  // workers

  /** One entry of `workers()`: the descriptor, address and client id
      (null where the line has fewer words) and the announced
      abilities. */
  datatype WorkerInfo = WorkerInfo(fd: string, ip: Option<string>, id: Option<string>, abilities: seq<string>)

  /** A worker line: the part before the first " : " holds the
      space-separated descriptor, address and id, the part after it the
      abilities; an empty (or "0") abilities part is no abilities. */
  function WorkerOf(t: string): WorkerInfo {
    var info := Split(t, " : ");
    var ids := Split(info[0], " ");
    var abilities := if |info| > 1 then Trim(info[1]) else "";
    WorkerInfo(ids[0], Field(ids, 1), Field(ids, 2),
               if ServerLists.IsEmptyString(abilities) then [] else Split(abilities, " "))
  }

  /** The `foreach` of `workers()`: one entry per non-empty piece, in
      order. */
  function WorkerList(ts: seq<string>): (r: seq<WorkerInfo>)
    ensures |r| <= |ts|
  {
    if |ts| == 0 then []
    else if ts[0] == "" then WorkerList(ts[1..])
    else [WorkerOf(ts[0])] + WorkerList(ts[1..])
  }

  /** The list `workers()` builds from the reply text. */
  function ParseWorkers(res: string): seq<WorkerInfo> {
    WorkerList(Split(res, "\n"))
  }

  /** `workers()`. */
  function Workers(m: Manager, lines: seq<string>): (r: Result<Answer<seq<WorkerInfo>>>)
    ensures m.shutdown ==> r == Err(ServerIsShutDown)
    ensures r.Ok? ==> r.value.manager == Manager(false, m.sent + ["workers" + "\r\n"])
    ensures !m.shutdown ==> (r.Ok? <==> RecvCommand(lines).Ok?)
    ensures !m.shutdown && r.Err? ==> r.error == RecvCommand(lines).error
    ensures r.Ok? ==> r.value.value == ParseWorkers(RecvCommand(lines).value)
  {
    var next :- Exchange(m, "workers", "");
    var res :- RecvCommand(lines);
    Ok(Answer(next, ParseWorkers(res)))
  }

  /** Without empty pieces, there is one entry per line, in line
      order. */
  lemma {:induction false} WorkerListEach(ts: seq<string>)
    requires forall i :: 0 <= i < |ts| ==> ts[i] != ""
    ensures |WorkerList(ts)| == |ts|
    ensures forall i :: 0 <= i < |ts| ==> WorkerList(ts)[i] == WorkerOf(ts[i])
    decreases |ts|
  {
    if |ts| > 0 {
      assert ts[0] != "";
      WorkerListEach(ts[1..]);
      assert forall i :: 0 < i < |ts| ==> ts[1..][i - 1] == ts[i];
    }
  }

  /** A trailing empty piece adds nothing. */
  lemma {:induction false} WorkerListTrailingEmpty(ts: seq<string>)
    ensures WorkerList(ts + [""]) == WorkerList(ts)
    decreases |ts|
  {
    if |ts| == 0 {
      assert ([] + [""])[1..] == [];
    } else {
      WorkerListTrailingEmpty(ts[1..]);
      assert (ts + [""])[1..] == ts[1..] + [""];
    }
  }

  /** `workers()` on a reply of non-empty plain lines closed by ".\n"
      lists one worker per line, in order. */
  lemma WorkersReadsReply(m: Manager, ts: seq<string>, more: seq<string>)
    requires !m.shutdown
    requires forall i :: 0 <= i < |ts| ==> ts[i] != "" && '\n' !in ts[i] && Plain(ts[i] + "\n")
    ensures Workers(m, Framed(ts) + [".\n"] + more).Ok?
    ensures Workers(m, Framed(ts) + [".\n"] + more).value.value == WorkerList(ts)
    ensures |WorkerList(ts)| == |ts|
    ensures forall i :: 0 <= i < |ts| ==> WorkerList(ts)[i] == WorkerOf(ts[i])
  {
    EmptyLineIsNoError();
    RecvFramed(ts, more);
    SplitLines(ts);
    WorkerListTrailingEmpty(ts);
    WorkerListEach(ts);
  }

  /** The separator " : " cannot occur in a string without ':'. */
  lemma {:induction false} SplitColonFree(s: string)
    requires ':' !in s
    ensures Split(s, " : ") == [s]
    decreases |s|
  {
    if |s| >= 3 {
      assert s[1] in s;
      assert s[..3] != " : ";
      assert forall c :: c in s[1..] ==> c in s;
      SplitColonFree(s[1..]);
      assert [s[0]] + s[1..] == s;
    }
  }

  /** A piece without ':' followed by " : " is split off first. */
  lemma {:induction false} SplitAfterColonFree(p: string, x: string)
    requires ':' !in p
    ensures Split(p + " : " + x, " : ") == [p] + Split(x, " : ")
    decreases |p|
  {
    var s := p + " : " + x;
    if |p| == 0 {
      assert s[..3] == " : ";
      assert s[3..] == x;
    } else {
      assert s[1] != ':' by {
        if |p| > 1 {
          assert s[1] == p[1] && p[1] in p;
        }
      }
      assert s[..3] != " : ";
      assert forall c :: c in p[1..] ==> c in p;
      SplitAfterColonFree(p[1..], x);
      assert s[1..] == p[1..] + " : " + x;
      assert [p[0]] + p[1..] == p;
    }
  }

  /** A character in no piece and not in the delimiter is not in the
      join. */
  lemma {:induction false} JoinAvoids(parts: seq<string>, d: string, c: char)
    requires c !in d && forall i :: 0 <= i < |parts| ==> c !in parts[i]
    ensures c !in Join(parts, d)
    decreases |parts|
  {
    if |parts| > 1 {
      JoinAvoids(parts[1..], d, c);
    }
  }

  /** The join of non-empty words starts with the first word's first
      character and ends with the last word's last character. */
  lemma {:induction false} JoinEnds(parts: seq<string>, d: string)
    requires |parts| > 0 && forall i :: 0 <= i < |parts| ==> |parts[i]| > 0
    ensures |Join(parts, d)| > 0
    ensures Join(parts, d)[0] == parts[0][0]
    ensures Join(parts, d)[|Join(parts, d)| - 1] == parts[|parts| - 1][|parts[|parts| - 1]| - 1]
    decreases |parts|
  {
    if |parts| > 1 {
      JoinEnds(parts[1..], d);
    }
  }

  /** Words fit for a worker line: non-empty, without trim characters
      (so without spaces) and without ':'. */
  predicate PlainWords(words: seq<string>) {
    forall i :: 0 <= i < |words| ==>
      (|words[i]| > 0 && ':' !in words[i] && forall j :: 0 <= j < |words[i]| ==> !IsTrimChar(words[i][j]))
  }

  /** The abilities part of a worker line reads back as the words written,
      except for the single word "0", which `empty()` drops. */
  lemma AbilitiesRoundTrip(abilities: seq<string>)
    requires PlainWords(abilities) && abilities != ["0"]
    ensures ':' !in Join(abilities, " ")
    ensures var a := Trim(Join(abilities, " "));
            (if ServerLists.IsEmptyString(a) then [] else Split(a, " ")) == abilities
  {
    var joined := Join(abilities, " ");
    JoinAvoids(abilities, " ", ':');
    if |abilities| > 0 {
      JoinEnds(abilities, " ");
      assert !IsTrimChar(joined[0]) && !IsTrimChar(joined[|joined| - 1]);
      assert TrimLeft(joined) == joined;
      assert TrimRight(joined) == joined;
      assert joined != "0" by {
        if |abilities| > 1 {
          assert joined == abilities[0] + " " + Join(abilities[1..], " ");
          assert |joined| > 1;
        }
      }
      forall i | 0 <= i < |abilities| ensures ' ' !in abilities[i] {
        assert forall j :: 0 <= j < |abilities[i]| ==> abilities[i][j] != ' ';
      }
      SplitJoin(abilities, ' ');
    }
  }

  /** A worker line as the server writes it is read back field by
      field. */
  lemma WorkerLineRoundTrip(fd: string, ip: string, id: string, abilities: seq<string>)
    requires PlainWords([fd, ip, id]) && PlainWords(abilities) && abilities != ["0"]
    ensures WorkerOf(fd + " " + ip + " " + id + " : " + Join(abilities, " "))
         == WorkerInfo(fd, Some(ip), Some(id), abilities)
  {
    var head := fd + " " + ip + " " + id;
    var joined := Join(abilities, " ");
    AbilitiesRoundTrip(abilities);
    JoinThree(fd, ip, id, " ");
    JoinAvoids([fd, ip, id], " ", ':');
    SplitAfterColonFree(head, joined);
    SplitColonFree(joined);
    assert [fd, ip, id][0] == fd && [fd, ip, id][1] == ip && [fd, ip, id][2] == id;
    assert ' ' !in fd && ' ' !in ip && ' ' !in id by {
      assert forall j :: 0 <= j < |fd| ==> fd[j] != ' ';
      assert forall j :: 0 <= j < |ip| ==> ip[j] != ' ';
      assert forall j :: 0 <= j < |id| ==> id[j] != ' ';
    }
    SplitJoin([fd, ip, id], ' ');
  }

  /** The quirk of `empty()`: a worker announcing one function named "0"
      is listed with no abilities. */
  lemma ZeroAbilityDropped(head: string)
    requires ':' !in head
    ensures WorkerOf(head + " : " + "0").abilities == []
  {
    var zero := "0";
    SplitAfterColonFree(head, zero);
    SplitColonFree(zero);
    assert Split(head + " : " + zero, " : ") == [head, zero];
    ZeroTrims();
  }

  lemma ZeroTrims()
    ensures Trim("0") == "0"
  {
    assert TrimLeft("0") == "0";
    assert TrimRight("0") == "0";
  }

  // ---------------------------------------------------------------------
  // Shutting down

  /** Once the server has acknowledged a shutdown, every operation that
      writes to it is refused before anything is written. */
  lemma ShutdownIsFinal(m: Manager, graceful: bool, reply: string, down: Manager,
                        later: string, again: bool, name: string, size: string, lines: seq<string>)
    requires Shutdown(m, graceful, reply) == Ok(Answer(down, true))
    requires IsNumeric(size) && ValidFunctionName(name)
    ensures
      && Version(down, later) == Err(ServerIsShutDown)
      && Shutdown(down, again, later) == Err(ServerIsShutDown)
      && SetMaxQueueSize(down, name, size, later) == Err(ServerIsShutDown)
      && Status(down, lines) == Err(ServerIsShutDown)
      && Workers(down, lines) == Err(ServerIsShutDown)
  {
  }

  /** A reply other than "OK" leaves the manager usable. */
  lemma RefusedShutdownKeepsManager(m: Manager, graceful: bool, reply: string)
    requires !m.shutdown && !IsErrorLine(reply) && Trim(reply) != "OK"
    ensures Shutdown(m, graceful, reply).Ok?
    ensures !Shutdown(m, graceful, reply).value.value
    ensures !Shutdown(m, graceful, reply).value.manager.shutdown
  {
  }
}
