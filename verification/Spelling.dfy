/** Process-completion spellings and the two decoders that read them.

    A raw trace row ending a task is kept as text. The recorder's legacy decoder reads it with
    the host's signal numbers; the trace-v1 contract reads it with a fixed vocabulary.
 */
module Spelling {
  import opened Ordered
  import opened Text

  const EXITED := "+++ exited with "
  const KILLED := "+++ killed by "
  const CLOSE := " +++"
  const CORE := " (core dumped)"

  // Signal vocabulary of the supported Linux x86_64 host.
  const KERNEL_RTMIN := 32
  const LIBC_RTMIN := 34
  const RTMAX := 64

  datatype ProcessExit = Exited(code: int) | Signaled(signal: int) | Unknown

  datatype Fields = Fields(code: Option<int>, signal: Option<int>)

  function MetadataFields(exit: ProcessExit): Fields {
    match exit
    case Exited(code) => Fields(Some(code), None)
    case Signaled(signal) => Fields(None, Some(signal))
    case Unknown => Fields(None, None)
  }

  function StandardSignal(name: string): (r: Option<int>)
    ensures r.Some? ==> 1 <= r.value <= 31 && |name| > 4 && name[3] != 'R'
  {
    if name == "SIGHUP" then Some(1) else if name == "SIGINT" then Some(2)
    else if name == "SIGQUIT" then Some(3) else if name == "SIGILL" then Some(4)
    else if name == "SIGTRAP" then Some(5) else if name == "SIGABRT" then Some(6)
    else if name == "SIGBUS" then Some(7) else if name == "SIGFPE" then Some(8)
    else if name == "SIGKILL" then Some(9) else if name == "SIGUSR1" then Some(10)
    else if name == "SIGSEGV" then Some(11) else if name == "SIGUSR2" then Some(12)
    else if name == "SIGPIPE" then Some(13) else if name == "SIGALRM" then Some(14)
    else if name == "SIGTERM" then Some(15) else if name == "SIGSTKFLT" then Some(16)
    else if name == "SIGCHLD" then Some(17) else if name == "SIGCONT" then Some(18)
    else if name == "SIGSTOP" then Some(19) else if name == "SIGTSTP" then Some(20)
    else if name == "SIGTTIN" then Some(21) else if name == "SIGTTOU" then Some(22)
    else if name == "SIGURG" then Some(23) else if name == "SIGXCPU" then Some(24)
    else if name == "SIGXFSZ" then Some(25) else if name == "SIGVTALRM" then Some(26)
    else if name == "SIGPROF" then Some(27) else if name == "SIGWINCH" then Some(28)
    else if name == "SIGIO" then Some(29) else if name == "SIGPWR" then Some(30)
    else if name == "SIGSYS" then Some(31) else None
  }

  /** An offset spelled after a realtime base, kept only inside its range. */
  function RealtimeOffset(name: string, prefix: string, base: int): (r: Option<int>)
    ensures r.Some? ==> base <= r.value <= RTMAX
  {
    match StripPrefix(name, prefix)
    case None => None
    case Some(text) =>
      match ParseI32(text)
      case None => None
      case Some(offset) => if 0 <= offset <= RTMAX - base then Some(base + offset) else None
  }

  function TraceV1Signal(name: string): (r: Option<int>)
    ensures r.Some? ==> 1 <= r.value <= 64
  {
    match StandardSignal(name)
    case Some(n) => Some(n)
    case None =>
      if name == "SIGRTMIN" then Some(LIBC_RTMIN)
      else if name == "SIGRTMAX" then Some(RTMAX)
      else match RealtimeOffset(name, "SIGRT_", KERNEL_RTMIN)
           case Some(n) => Some(n)
           case None => RealtimeOffset(name, "SIGRTMIN+", LIBC_RTMIN)
  }

  predicate NameChar(c: char) { IsLetter(c) || IsDigit(c) || c == '_' || c == '+' || c == '-' }

  predicate SignalName(name: string) {
    name != "" && forall i :: 0 <= i < |name| ==> NameChar(name[i])
  }

  function DropCore(spelling: string): string {
    match StripSuffix(spelling, CORE) case Some(name) => name case None => spelling
  }

  function Framed(outcome: string, opening: string): Option<string> {
    match StripPrefix(outcome, opening)
    case None => None
    case Some(rest) => StripSuffix(rest, CLOSE)
  }

  /** The saved trace-v1 reading: None rejects the spelling, Fields(None, None) keeps an
      observed completion whose signal name has no number. */
  function TraceV1Fields(outcome: string): (r: Option<Fields>)
    ensures r.Some? && r.value.code.Some? ==> 0 <= r.value.code.value <= 255 && r.value.signal.None?
    ensures r.Some? && r.value.signal.Some? ==> 1 <= r.value.signal.value <= 64
    ensures r == Some(Fields(None, None)) ==> KILLED <= outcome
  {
    match Framed(outcome, EXITED)
    case Some(value) =>
      if value == "" || !AllDigits(value) then None
      else (match ParseUnsigned(value, 256)
            case Some(code) => Some(Fields(Some(code), None))
            case None => None)
    case None =>
      match Framed(outcome, KILLED)
      case None => None
      case Some(spelling) =>
        var name := DropCore(spelling);
        if SignalName(name) then Some(Fields(None, TraceV1Signal(name))) else None
  }

  function TraceV1Exit(outcome: string): ProcessExit {
    match TraceV1Fields(outcome)
    case Some(Fields(Some(code), None)) => Exited(code)
    case Some(Fields(None, Some(signal))) => Signaled(signal)
    case _ => Unknown
  }

  /** Host decoding of the first token after the killed framing. A realtime prefix that parses
      but leaves its range ends the search; other names fall through to the table. */
  function HostSignal(outcome: string): (r: Option<int>)
    ensures r.Some? ==> 1 <= r.value <= 64
  {
    match StripPrefix(outcome, KILLED)
    case None => None
    case Some(rest) =>
      match FirstToken(rest)
      case None => None
      case Some(name) =>
        if Offset(name, "SIGRT_").Some? then RealtimeOffset(name, "SIGRT_", KERNEL_RTMIN)
        else if Offset(name, "SIGRTMIN+").Some? then RealtimeOffset(name, "SIGRTMIN+", LIBC_RTMIN)
        else if name == "SIGRTMIN" then Some(LIBC_RTMIN)
        else if name == "SIGRTMAX" then Some(RTMAX)
        else StandardSignal(name)
  }

  function Offset(name: string, prefix: string): Option<int> {
    match StripPrefix(name, prefix) case Some(text) => ParseI32(text) case None => None
  }

  function LegacyExit(outcome: string): ProcessExit {
    var code := match Framed(outcome, EXITED) case Some(v) => ParseI32(v) case None => None;
    if code.Some? then Exited(code.value)
    else match HostSignal(outcome)
         case Some(n) => Signaled(n)
         case None => Unknown
  }

  /** Rows the trace parser turns into exit events. */
  predicate ParserAccepts(body: string) {
    || (Framed(body, EXITED).Some? && ParseUnsigned(Framed(body, EXITED).value, 256).Some?)
    || (Framed(body, KILLED).Some? && Framed(body, KILLED).value != "" &&
        forall c :: c in Framed(body, KILLED).value ==> NameChar(c) || c == ' ' || c == '(' || c == ')')
  }

  lemma FramesDiffer(outcome: string)
    ensures !(EXITED <= outcome && KILLED <= outcome)
  {
    if EXITED <= outcome {
      assert outcome[4] == EXITED[4] == 'e';
      assert KILLED[4] == 'k';
    }
  }

  /** What the parser admits and the saved contract still refuses: a sign before the code, or a
      space or parenthesis left in the signal name. */
  predicate SavedSpelling(body: string) {
    match Framed(body, EXITED)
    case Some(value) => value == "" || value[0] != '+'
    case None =>
      match Framed(body, KILLED)
      case Some(spelling) =>
        DropCore(spelling) != "" &&
        forall c :: c in DropCore(spelling) ==> c != ' ' && c != '(' && c != ')'
      case None => true
  }

  lemma ParserAgainstContract(body: string)
    requires ParserAccepts(body)
    ensures TraceV1Fields(body).Some? <==> SavedSpelling(body)
  {
    FramesDiffer(body);
    match Framed(body, EXITED)
    case Some(value) => SignIsTheOnlyGap(value);
    case None => NameCharsAreTheOnlyGap(Framed(body, KILLED).value);
  }

  lemma SignIsTheOnlyGap(value: string)
    requires ParseUnsigned(value, 256).Some?
    ensures (value != "" && AllDigits(value)) <==> value[0] != '+'
  {
    assert !IsDigit('+');
  }

  lemma NameCharsAreTheOnlyGap(spelling: string)
    requires forall c :: c in spelling ==> NameChar(c) || c == ' ' || c == '(' || c == ')'
    ensures SignalName(DropCore(spelling)) <==>
            DropCore(spelling) != "" && forall c :: c in DropCore(spelling) ==> c != ' ' && c != '(' && c != ')'
  {
    var name := DropCore(spelling);
    assert !NameChar(' ') && !NameChar('(') && !NameChar(')');
    assert forall i :: 0 <= i < |name| ==> name[i] == spelling[i] && spelling[i] in spelling;
    assert forall i :: 0 <= i < |name| ==> name[i] in name;
  }

  lemma FramedIs(opening: string, middle: string)
    ensures Framed(opening + middle + CLOSE, opening) == Some(middle)
  {
    var body := opening + middle + CLOSE;
    assert opening <= body && body[|opening|..] == middle + CLOSE;
  }

  lemma SignedExitCodeRefused()
    ensures var body := "+++ exited with +5 +++"; ParserAccepts(body) && TraceV1Fields(body).None?
  {
    assert EXITED + "+5" + CLOSE == "+++ exited with +5 +++";
    FramedIs(EXITED, "+5");
    assert "+5"[1..] == "5";
    assert AllDigits("5") && NumberIn("5", 10) == 5;
  }

  lemma SpacedSignalNameRefused()
    ensures var body := "+++ killed by SIG A +++"; ParserAccepts(body) && TraceV1Fields(body).None?
  {
    var body := "+++ killed by SIG A +++";
    SpacedFrame();
    hide *;
    SpacedRead(body);
  }

  lemma SpacedFrame()
    ensures Framed("+++ killed by SIG A +++", KILLED) == Some("SIG A")
  {
    assert KILLED + "SIG A" + CLOSE == "+++ killed by SIG A +++";
    FramedIs(KILLED, "SIG A");
  }

  lemma SpacedRead(body: string)
    requires Framed(body, KILLED) == Some("SIG A")
    ensures ParserAccepts(body) && TraceV1Fields(body).None?
  {
    hide TraceV1Signal;
    hide ParseUnsigned;
    FramesDiffer(body);
    assert DropCore("SIG A")[3] == ' ';
  }

  /** Accepted parser rows never give the legacy decoder a code outside 0..=255, and only a
      killed row can stay unknown. */
  lemma LegacyOutcomeRange(body: string)
    requires ParserAccepts(body)
    ensures LegacyExit(body).Exited? ==> 0 <= LegacyExit(body).code <= 255
    ensures LegacyExit(body).Signaled? ==> 1 <= LegacyExit(body).signal <= 64
    ensures LegacyExit(body).Unknown? ==> KILLED <= body
  {
    FramesDiffer(body);
    match Framed(body, EXITED)
    case Some(value) => UnsignedAsI32(value);
    case None =>
  }

  lemma UnsignedAsI32(value: string)
    requires ParseUnsigned(value, 256).Some?
    ensures ParseI32(value) == Some(ParseUnsigned(value, 256).value)
  {
    assert !IsDigit('-');
  }

  /** Both decoders read every spelling the saved contract accepts in the same way, although one
      takes a whitespace token and the other strips exact framing. */
  lemma DecodersAgree(outcome: string)
    requires TraceV1Fields(outcome).Some?
    ensures LegacyExit(outcome) == TraceV1Exit(outcome)
  {
    FramesDiffer(outcome);
    match Framed(outcome, EXITED)
    case Some(value) => UnsignedAsI32(value);
    case None =>
      var spelling := Framed(outcome, KILLED).value;
      TokenIsName(outcome, spelling);
      SignalReadingsAgree(DropCore(spelling));
  }

  lemma TokenIsName(outcome: string, spelling: string)
    requires Framed(outcome, KILLED) == Some(spelling) && SignalName(DropCore(spelling))
    ensures FirstToken(outcome[|KILLED|..]) == Some(DropCore(spelling))
  {
    var rest := outcome[|KILLED|..];
    var name := DropCore(spelling);
    assert rest == spelling + CLOSE;
    var tail := rest[|name|..];
    assert tail[0] == ' ' by {
      if |name| < |spelling| { assert tail[0] == spelling[|name|] == CORE[0]; }
    }
    assert rest == name + tail;
    forall i | 0 <= i < |name| ensures !IsWhitespace(name[i]) { assert NameChar(name[i]); }
    TokenBefore(name, tail);
  }

  lemma TokenBefore(name: string, tail: string)
    requires name != "" && (forall i :: 0 <= i < |name| ==> !IsWhitespace(name[i]))
    requires tail != "" && IsWhitespace(tail[0])
    ensures FirstToken(name + tail) == Some(name)
  {
    var rest := name + tail;
    assert rest[0] == name[0];
    assert FirstWhere(rest, c => !IsWhitespace(c)) == 0;
    assert rest[0..] == rest;
    var n := FirstWhere(rest, IsWhitespace);
    assert forall i :: 0 <= i < |name| ==> rest[i] == name[i] && !IsWhitespace(rest[i]);
    assert n >= |name|;
    assert rest[|name|] == tail[0];
    assert n <= |name|;
  }

  lemma SignalReadingsAgree(name: string)
    requires SignalName(name)
    ensures (if Offset(name, "SIGRT_").Some? then RealtimeOffset(name, "SIGRT_", KERNEL_RTMIN)
             else if Offset(name, "SIGRTMIN+").Some? then RealtimeOffset(name, "SIGRTMIN+", LIBC_RTMIN)
             else if name == "SIGRTMIN" then Some(LIBC_RTMIN)
             else if name == "SIGRTMAX" then Some(RTMAX)
             else StandardSignal(name)) == TraceV1Signal(name)
  {
    if "SIGRT_" <= name {
      assert name[5] == '_';
      assert "SIGRTMIN+"[5] == 'M';
    }
    if StandardSignal(name).Some? { StandardNamesHaveNoRealtimePrefix(name); }
  }

  lemma StandardNamesHaveNoRealtimePrefix(name: string)
    requires StandardSignal(name).Some?
    ensures !("SIGRT_" <= name) && !("SIGRTMIN+" <= name) && name != "SIGRTMIN" && name != "SIGRTMAX"
  {
    assert "SIGRT_"[3] == "SIGRTMIN+"[3] == "SIGRTMIN"[3] == "SIGRTMAX"[3] == 'R';
  }
}
