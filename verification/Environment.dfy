/** What a caller makes of a node's answer (environment.py): the three decoders, and the audit row
each outcome leaves. */
module Environment {
  import opened Wire
  import opened Wrappers

  /** `Crash` is an exception the caller does not catch as a node error: no audit row follows it. */
  datatype Decoded<T> = Good(value: T) | NodeError(code: int) | Crash

  datatype ExecOutput = ExecOutput(output: Json, returncode: int)
  datatype ReadOutput = ReadOutput(content: string, sizeBytes: int, truncated: bool)
  datatype WriteOutput = WriteOutput(bytesWritten: int)

  const TRUNCATED := "\n[output truncated at 10MB]\n"

  const EXEC_TIMEOUT := 3001

  function ErrorCode(name: string): int {
    match name
    case "path_not_allowed" => 2001
    case "file_not_found" => 2002
    case "file_too_large" => 2003
    case "permission_denied" => 2004
    case "io_error" => 2005
    case _ => 0
  }

  predicate IsMessage(result: Json, msgType: string) {
    result.Obj? && Get(result, "type") == Str(msgType)
  }

  function CodeError<T>(code: Json, py: Python): Decoded<T> {
    match ToInt(code, py)
    case Some(n) => NodeError(n)
    case None => Crash
  }

  function ExitCode(j: Json): int {
    match j
    case Int(n) => n
    case Bool(b) => if b then 1 else 0
    case _ => 0
  }

  /** stdout, with stderr behind a tag line when the command failed. */
  function Merged(stdout: Json, stderr: Json, rc: int, py: Python): Json {
    if rc != 0 && Truthy(stderr) then
      Str(LineEnded(Show(stdout, py) + "\n[stderr]\n" + Show(stderr, py)))
    else stdout
  }

  function LineEnded(s: string): string {
    if s != "" && s[|s| - 1] == '\n' then s else s + "\n"
  }

  function Chars(s: string): seq<Json> {
    seq(|s|, i requires 0 <= i < |s| => Str([s[i]]))
  }

  /** `output += hint`: text grows, a list takes the characters, anything else raises. */
  function Hinted(output: Json): Option<Json> {
    match output
    case Str(s) => Some(Str(s + TRUNCATED))
    case Arr(items) => Some(Arr(items + Chars(TRUNCATED)))
    case _ => None
  }

  function DecodeExec(result: Json, py: Python): Decoded<ExecOutput> {
    if !IsMessage(result, "exec_result") then NodeError(0)
    else if Get(result, "status") == Str("error") then CodeError(Or(Get(result, "code"), Int(0)), py)
    else if Get(result, "status") == Str("timeout") then CodeError(Or(Get(result, "code"), Int(EXEC_TIMEOUT)), py)
    else
      var rc := ExitCode(Get(result, "exit_code"));
      var output := Merged(Or(Get(result, "stdout"), Str("")), Or(Get(result, "stderr"), Str("")), rc, py);
      if !Truthy(Get(result, "truncated")) then Good(ExecOutput(output, rc))
      else match Hinted(output)
        case Some(hinted) => Good(ExecOutput(hinted, rc))
        case None => Crash
  }

  function NamedError<T>(result: Json, py: Python): Decoded<T>
    requires result.Obj?
  {
    NodeError(ErrorCode(Show(Or(Get(result, "error"), Str("unknown")), py)))
  }

  function DecodeRead(result: Json, py: Python): Decoded<ReadOutput> {
    if !IsMessage(result, "read_result") then NodeError(0)
    else if Get(result, "status") == Str("error") then NamedError(result, py)
    else
      var content := if "content_b64" in result.fields then result.fields["content_b64"] else Str("");
      if !content.Str? then Crash
      else match py.unbase64(content.s)
        case None => NodeError(0)
        case Some(bytes) =>
          match ToInt(Or(Get(result, "size_bytes"), Int(|bytes|)), py)
          case None => Crash
          case Some(size) => Good(ReadOutput(py.utf8(bytes), size, Truthy(Get(result, "truncated"))))
  }

  function DecodeWrite(result: Json, py: Python): Decoded<WriteOutput> {
    if !IsMessage(result, "write_result") then NodeError(0)
    else if Get(result, "status") == Str("error") then NamedError(result, py)
    else match ToInt(Or(Get(result, "bytes_written"), Int(0)), py)
      case None => Crash
      case Some(n) => Good(WriteOutput(n))
  }

  // ---------------------------------------------------------------------

  datatype Action = Exec | Read | Write

  /** How a call ended for its caller. */
  datatype Outcome =
    | NoOp
    | NotConnected
    | SendFailed
    | Expired
    | Disconnected
    | Succeeded(exitCode: int)
    | NodeFailed(code: int)
    | Crashed

  datatype Status = Ok | Error | Timeout | Offline

  datatype AuditRow = AuditRow(action: Action, node: string, requestId: string, status: Status, exitCode: int)

  function OutcomeOf(action: Action, msg: Json, py: Python): Outcome {
    match action
    case Exec =>
      (match DecodeExec(msg, py)
       case Good(out) => Succeeded(out.returncode)
       case NodeError(code) => NodeFailed(code)
       case Crash => Crashed)
    case Read =>
      (match DecodeRead(msg, py)
       case Good(_) => Succeeded(0)
       case NodeError(code) => NodeFailed(code)
       case Crash => Crashed)
    case Write =>
      (match DecodeWrite(msg, py)
       case Good(_) => Succeeded(0)
       case NodeError(code) => NodeFailed(code)
       case Crash => Crashed)
  }

  /** The rows `_record_audit` is asked to write for an outcome. */
  function RowsFor(action: Action, node: string, id: string, out: Outcome): seq<AuditRow> {
    match out
    case NoOp => []
    case Crashed => []
    case NotConnected => [AuditRow(action, node, id, Offline, -1)]
    case Disconnected => [AuditRow(action, node, id, Offline, -1)]
    case SendFailed => [AuditRow(action, node, id, Error, -1)]
    case Expired => [AuditRow(action, node, id, Timeout, -1)]
    case NodeFailed(code) => [AuditRow(action, node, id, Error, if code == 0 then -1 else code)]
    case Succeeded(rc) => [AuditRow(action, node, id, Ok, rc)]
  }

  /** A message whose fields have the types the protocol gives them. */
  predicate WellTyped(msg: Json) {
    && msg.Obj?
    && (Get(msg, "code").Null? || Get(msg, "code").Int?)
    && (Get(msg, "stdout").Null? || Get(msg, "stdout").Str?)
    && (Get(msg, "size_bytes").Null? || Get(msg, "size_bytes").Int?)
    && (Get(msg, "bytes_written").Null? || Get(msg, "bytes_written").Int?)
    && ("content_b64" in msg.fields ==> msg.fields["content_b64"].Str?)
  }

  /** A field that makes `int(field or default)` raise. */
  predicate BadInt(j: Json, py: Python) {
    Truthy(j) && ToInt(j, py).None?
  }

  /** An exit code that says the command failed. */
  predicate SaysFailure(code: Json) {
    (code.Int? && code.n != 0) || code == Bool(true)
  }

  /** Exactly which answers make `execute` fail without a row: an error code that is no number, or
  a truncated output that is neither text nor a list. */
  lemma ExecCrashesExactly(msg: Json, py: Python)
    ensures DecodeExec(msg, py).Crash? <==>
      && IsMessage(msg, "exec_result")
      && (if Get(msg, "status") == Str("error") || Get(msg, "status") == Str("timeout")
          then BadInt(Get(msg, "code"), py)
          else
            && Truthy(Get(msg, "truncated"))
            && Truthy(Get(msg, "stdout")) && !Get(msg, "stdout").Str? && !Get(msg, "stdout").Arr?
            && !(SaysFailure(Get(msg, "exit_code")) && Truthy(Get(msg, "stderr"))))
  {
    if msg.Obj? {
      HintFails(Get(msg, "stdout"), Get(msg, "stderr"), ExitCode(Get(msg, "exit_code")), py);
    }
  }

  lemma HintFails(stdout: Json, stderr: Json, rc: int, py: Python)
    ensures Hinted(Merged(Or(stdout, Str("")), Or(stderr, Str("")), rc, py)).None?
      <==> Truthy(stdout) && !stdout.Str? && !stdout.Arr? && !(rc != 0 && Truthy(stderr))
  {}

  /** `read` fails without a row on a `content_b64` that is not text (null included), or a size that
  is no number. */
  lemma ReadCrashesExactly(msg: Json, py: Python)
    ensures DecodeRead(msg, py).Crash? <==>
      && IsMessage(msg, "read_result") && Get(msg, "status") != Str("error")
      && (if "content_b64" !in msg.fields then py.unbase64("").Some? && BadInt(Get(msg, "size_bytes"), py)
          else
            || !msg.fields["content_b64"].Str?
            || (py.unbase64(msg.fields["content_b64"].s).Some? && BadInt(Get(msg, "size_bytes"), py)))
  {}

  lemma WriteCrashesExactly(msg: Json, py: Python)
    ensures DecodeWrite(msg, py).Crash? <==>
      && IsMessage(msg, "write_result") && Get(msg, "status") != Str("error")
      && BadInt(Get(msg, "bytes_written"), py)
  {}

  /** A well-typed answer always leaves exactly one row, with the request's own id; the status is
  Ok for a success, Error otherwise, and an Error row never has exit code 0. */
  lemma WellTypedLeavesOneRow(action: Action, node: string, id: string, msg: Json, py: Python)
    requires WellTyped(msg)
    ensures
      var out := OutcomeOf(action, msg, py);
      var rows := RowsFor(action, node, id, out);
      && |rows| == 1 && rows[0].requestId == id && rows[0].node == node && rows[0].action == action
      && (rows[0].status == Ok <==> out.Succeeded?)
      && (rows[0].status == Error <==> out.NodeFailed?)
      && (out.NodeFailed? ==> rows[0].exitCode != 0)
  {
    match action
    case Exec => ExecCrashesExactly(msg, py);
    case Read => ReadCrashesExactly(msg, py);
    case Write => WriteCrashesExactly(msg, py);
  }

  /** What the node printed is always the beginning of what the agent sees; a command whose exit code says
  failure shows its stderr as well, a truncated output ends with the hint, and nothing else is added. */
  lemma OutputKeepsStdout(msg: Json, py: Python)
    requires DecodeExec(msg, py).Good? && Get(msg, "stdout").Str? && Get(msg, "stderr").Str?
    ensures
      var stdout, stderr := Get(msg, "stdout").s, Get(msg, "stderr").s;
      var out := DecodeExec(msg, py).value;
      && out.output.Str? && stdout <= out.output.s
      && (if SaysFailure(Get(msg, "exit_code")) && stderr != "" then stdout + "\n[stderr]\n" + stderr <= out.output.s
          else out.output.s == if Truthy(Get(msg, "truncated")) then stdout + TRUNCATED else stdout)
      && (SaysFailure(Get(msg, "exit_code")) && stderr != "" && !Truthy(Get(msg, "truncated")) ==>
            out.output.s == stdout + "\n[stderr]\n" + stderr + if stderr[|stderr| - 1] == '\n' then "" else "\n")
      && (Truthy(Get(msg, "truncated")) ==>
            |TRUNCATED| <= |out.output.s| && out.output.s[|out.output.s| - |TRUNCATED|..] == TRUNCATED)
  {
    var stdout, stderr := Get(msg, "stdout"), Get(msg, "stderr");
    var rc := ExitCode(Get(msg, "exit_code"));
    MergedKeepsStdout(stdout.s, stderr.s, rc, py);
    assert Or(stdout, Str("")) == stdout && Or(stderr, Str("")) == stderr;
    PrefixGrows(stdout.s, Merged(stdout, stderr, rc, py).s);
    HintIsLast(Merged(stdout, stderr, rc, py).s);
    PrefixGrows(stdout.s + "\n[stderr]\n" + stderr.s, Merged(stdout, stderr, rc, py).s);
  }

  /** The exit code the node reported is what the caller gets and what the row says; a boolean counts as
  the number it is in Python, anything else as 0. */
  lemma ExitCodeIsReturned(msg: Json, py: Python, node: string, id: string)
    requires DecodeExec(msg, py).Good?
    ensures
      var code, rc := Get(msg, "exit_code"), DecodeExec(msg, py).value.returncode;
      && (code.Int? ==> rc == code.n) && (code == Bool(true) ==> rc == 1) && (!SaysFailure(code) ==> rc == 0)
      && RowsFor(Exec, node, id, OutcomeOf(Exec, msg, py)) == [AuditRow(Exec, node, id, Ok, rc)]
  {}

  /** The code of a failed execute is the node's, or 3001 for a timeout that names none; a row never
  says 0. */
  lemma ExecErrorIsReported(msg: Json, py: Python, node: string, id: string)
    requires IsMessage(msg, "exec_result") && (Get(msg, "code").Int? || Get(msg, "code").Null?)
    requires Get(msg, "status") == Str("error") || Get(msg, "status") == Str("timeout")
    ensures
      var named := if Get(msg, "code").Int? then Get(msg, "code").n else 0;
      var code := if named == 0 && Get(msg, "status") == Str("timeout") then 3001 else named;
      && DecodeExec(msg, py) == NodeError(code)
      && RowsFor(Exec, node, id, OutcomeOf(Exec, msg, py))
         == [AuditRow(Exec, node, id, Error, if code == 0 then -1 else code)]
  {}

  /** A well-formed read answer gives the decoded file, its size (that of the decoded bytes if none is
  named) and whether it was cut. */
  lemma ReadIsReturned(msg: Json, py: Python, b64: string, bytes: seq<int>, node: string, id: string)
    requires IsMessage(msg, "read_result") && Get(msg, "status") != Str("error")
    requires Get(msg, "content_b64") == Str(b64) && py.unbase64(b64) == Some(bytes)
    requires Get(msg, "size_bytes").Int? || Get(msg, "size_bytes").Null?
    requires Get(msg, "truncated").Bool? || Get(msg, "truncated").Null?
    ensures
      var size := Get(msg, "size_bytes");
      && DecodeRead(msg, py).Good?
      && DecodeRead(msg, py).value.content == py.utf8(bytes)
      && DecodeRead(msg, py).value.sizeBytes == (if size.Int? && size.n != 0 then size.n else |bytes|)
      && (DecodeRead(msg, py).value.truncated <==> Get(msg, "truncated") == Bool(true))
      && RowsFor(Read, node, id, OutcomeOf(Read, msg, py)) == [AuditRow(Read, node, id, Ok, 0)]
  {}

  /** A well-formed write answer gives the number of bytes it names, 0 if it names none. */
  lemma WriteIsReturned(msg: Json, py: Python, node: string, id: string)
    requires IsMessage(msg, "write_result") && Get(msg, "status") != Str("error")
    requires Get(msg, "bytes_written").Int? || Get(msg, "bytes_written").Null?
    ensures
      var named := Get(msg, "bytes_written");
      && DecodeWrite(msg, py) == Good(WriteOutput(if named.Int? then named.n else 0))
      && RowsFor(Write, node, id, OutcomeOf(Write, msg, py)) == [AuditRow(Write, node, id, Ok, 0)]
  {}

  /** The error names of the protocol and their codes. */
  predicate NamedCode(name: string, code: int) {
    || (name == "path_not_allowed" && code == 2001) || (name == "file_not_found" && code == 2002)
    || (name == "file_too_large" && code == 2003) || (name == "permission_denied" && code == 2004)
    || (name == "io_error" && code == 2005)
  }

  /** A read or write that failed with a named error leaves a row with that error's code, and one that failed
  with any other text a row with -1. */
  lemma FileErrorIsReported(action: Action, msg: Json, py: Python, name: string, node: string, id: string)
    requires !action.Exec? && name != ""
    requires IsMessage(msg, if action.Read? then "read_result" else "write_result")
    requires Get(msg, "status") == Str("error") && Get(msg, "error") == Str(name)
    ensures
      var rows := RowsFor(action, node, id, OutcomeOf(action, msg, py));
      && |rows| == 1 && rows[0] == AuditRow(action, node, id, Error, rows[0].exitCode)
      && (NamedCode(name, rows[0].exitCode)
          || (rows[0].exitCode == -1 && forall code :: !NamedCode(name, code)))
  {}

  /** An answer of another type, or a read whose content is not base64, leaves an Error row with -1. */
  lemma MalformedIsReported(action: Action, msg: Json, py: Python, node: string, id: string)
    requires
      var expected := match action case Exec => "exec_result" case Read => "read_result" case Write => "write_result";
      || !IsMessage(msg, expected)
      || (action.Read? && Get(msg, "status") != Str("error")
          && Get(msg, "content_b64").Str? && py.unbase64(Get(msg, "content_b64").s).None?)
    ensures RowsFor(action, node, id, OutcomeOf(action, msg, py)) == [AuditRow(action, node, id, Error, -1)]
  {}

  lemma MergedKeepsStdout(stdout: string, stderr: string, rc: int, py: Python)
    ensures
      var m := Merged(Str(stdout), Str(stderr), rc, py);
      && m.Str? && stdout <= m.s
      && (if rc != 0 && stderr != "" then
            && stdout + "\n[stderr]\n" + stderr <= m.s
            && m.s == stdout + "\n[stderr]\n" + stderr + (if stderr[|stderr| - 1] == '\n' then "" else "\n")
          else m.s == stdout)
  {}

  lemma PrefixGrows(s: string, t: string)
    ensures s <= t ==> s <= t + TRUNCATED
  {}

  lemma HintIsLast(s: string)
    ensures (s + TRUNCATED)[|s + TRUNCATED| - |TRUNCATED|..] == TRUNCATED
  {}

  /** For example: an error whose code is text, a read without text, and a byte count that is text. */
  lemma CrashExamples(py: Python)
    requires py.parseInt("x").None?
    ensures
      var failed := map["type" := Str("exec_result"), "status" := Str("error"), "code" := Str("x")];
      DecodeExec(Obj(failed), py).Crash?
    ensures DecodeRead(Obj(map["type" := Str("read_result"), "content_b64" := Null]), py).Crash?
    ensures DecodeWrite(Obj(map["type" := Str("write_result"), "bytes_written" := Str("x")]), py).Crash?
  {
    var failed := Obj(map["type" := Str("exec_result"), "status" := Str("error"), "code" := Str("x")]);
    assert Get(failed, "code") == Str("x") && Truthy(Str("x"));
  }
}
