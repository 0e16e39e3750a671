/** The event stream of a bounded model process: output arrives in arbitrary chunks of bytes, is decoded
    and cut into lines, and every line may count a step or give a reason to stop. */
module EventStream {
  import opened Options
  import opened Utf8

  datatype StopReason = StepBudget | Deadline | InvalidEvents | OutputLimit | HostError | Cancelled

  /** What one line of output parses to. Session, message and part are the identifiers of a step
      event whose envelope is consistent. */
  datatype Line =
    | Blank | Malformed | ErrorEvent | Ignored
    | StepStart(session: nat, message: nat, part: nat)
    | StepFinish(session: nat, message: nat, part: nat)

  datatype View = View(session: Option<nat>, starts: set<nat>, finishes: set<nat>, reason: Option<StopReason>)

  const EMPTY := View(None, {}, {}, None)
  const TOTAL_LIMIT := 64 * 1024 * 1024
  const LINE_LIMIT := 8 * 1024 * 1024

  /** The first reason stays, except that any other one replaces the step budget. */
  function Stop(reason: Option<StopReason>, next: StopReason): Option<StopReason> {
    if reason == None || (reason == Some(StepBudget) && next != StepBudget) then Some(next) else reason
  }

  function Stopped(v: View, next: StopReason): View {
    v.(reason := Stop(v.reason, next))
  }

  function Apply(v: View, line: Line, limit: nat): View {
    match line
    case Blank => v
    case Malformed => Stopped(v, InvalidEvents)
    case ErrorEvent => Stopped(v, HostError)
    case Ignored => v
    case StepStart(session, message, _) =>
      if v.session.Some? && v.session.value != session then Stopped(v, InvalidEvents)
      else v.(session := Some(session), starts := v.starts + {message})
    case StepFinish(session, message, part) =>
      if v.session.Some? && v.session.value != session then Stopped(v, InvalidEvents)
      else if message !in v.starts || part in v.finishes then Stopped(v.(session := Some(session)), InvalidEvents)
      else
        var v' := v.(session := Some(session), finishes := v.finishes + {part});
        if |v'.finishes| >= limit then Stopped(v', StepBudget) else v'
  }

  function Fold(v: View, lines: seq<string>, parse: string -> Line, limit: nat): View
    decreases |lines|
  {
    if lines == [] then v else Fold(Apply(v, parse(lines[0]), limit), lines[1..], parse, limit)
  }

  // ---------------------------------------------------------------- lines

  /** The position of the first line feed, or the length of the text. */
  function Newline(s: string): (n: nat)
    ensures n <= |s| && (n < |s| ==> s[n] == '\n') && forall i | 0 <= i < n :: s[i] != '\n'
  {
    if s == "" || s[0] == '\n' then 0 else 1 + Newline(s[1..])
  }

  function Lines(s: string): seq<string>
    decreases |s|
  {
    var n := Newline(s);
    if n == |s| then [] else [s[..n]] + Lines(s[n + 1..])
  }

  function Rest(s: string): string
    decreases |s|
  {
    var n := Newline(s);
    if n == |s| then s else Rest(s[n + 1..])
  }

  /** All newline-separated pieces, the last one without its line feed included. */
  function Pieces(s: string): seq<string> {
    Lines(s) + [Rest(s)]
  }

  lemma NewlineIs(s: string, n: nat)
    requires n <= |s| && (n < |s| ==> s[n] == '\n') && forall i | 0 <= i < n :: s[i] != '\n'
    ensures Newline(s) == n
  {
  }

  lemma NewlineOfConcat(a: string, b: string)
    ensures Newline(a) < |a| ==> Newline(a + b) == Newline(a)
    ensures Newline(a) == |a| ==> Newline(a + b) == |a| + Newline(b)
  {
    NewlineIs(a + b, if Newline(a) < |a| then Newline(a) else |a| + Newline(b));
  }

  /** Cutting a text anywhere and carrying the incomplete line over gives the same lines. */
  lemma {:induction false} LinesOfConcat(a: string, b: string)
    ensures Lines(a + b) == Lines(a) + Lines(Rest(a) + b) && Rest(a + b) == Rest(Rest(a) + b)
    decreases |a|
  {
    hide Lines, Rest, Newline;
    var n := Newline(a);
    NewlineOfConcat(a, b);
    if n < |a| {
      var later := a[n + 1..];
      OneLine(a);
      OneLine(a + b);
      LinesOfConcat(later, b);
      assert (a + b)[..n] == a[..n];
      assert (a + b)[n + 1..] == later + b;
      assert Lines(a) + Lines(Rest(a) + b) == [a[..n]] + (Lines(later) + Lines(Rest(later) + b));
    } else {
      NoLine(a);
      assert Lines(a) + Lines(a + b) == Lines(a + b);
    }
  }

  lemma {:induction false} FoldConcat(v: View, x: seq<string>, y: seq<string>, parse: string -> Line, limit: nat)
    ensures Fold(v, x + y, parse, limit) == Fold(Fold(v, x, parse, limit), y, parse, limit)
    decreases |x|
  {
    if x == [] {
      assert x + y == y;
    } else {
      assert (x + y)[1..] == x[1..] + y;
      FoldConcat(Apply(v, parse(x[0]), limit), x[1..], y, parse, limit);
    }
  }

  // ---------------------------------------------------------------- what a fold means

  /** A step was counted for a reason: a finish event names it, and before that a start event named
      the same message; both belong to the one session. */
  ghost predicate Counted(lines: seq<string>, parse: string -> Line, session: nat, part: nat) {
    exists i, j :: 0 <= i < j < |lines| && StartedAt(lines, parse, i, j, session, part)
  }

  predicate StartedAt(lines: seq<string>, parse: string -> Line, i: nat, j: nat, session: nat, part: nat)
    requires i < j < |lines|
  {
    && parse(lines[i]).StepStart? && parse(lines[j]).StepFinish? && parse(lines[j]).part == part
    && parse(lines[i]).session == parse(lines[j]).session == session && parse(lines[i]).message == parse(lines[j]).message
  }

  predicate Started(lines: seq<string>, parse: string -> Line, session: nat, message: nat) {
    exists i | 0 <= i < |lines| :: parse(lines[i]).StepStart? && parse(lines[i]).session == session && parse(lines[i]).message == message
  }

  /** The session is that of the first step event. */
  function SessionOf(lines: seq<string>, parse: string -> Line): Option<nat> {
    if lines == [] then None
    else if parse(lines[0]).StepStart? || parse(lines[0]).StepFinish? then Some(parse(lines[0]).session)
    else SessionOf(lines[1..], parse)
  }

  lemma {:induction false} SessionOfMore(lines: seq<string>, line: string, parse: string -> Line)
    ensures SessionOf(lines + [line], parse) ==
            if SessionOf(lines, parse).Some? then SessionOf(lines, parse)
            else if parse(line).StepStart? || parse(line).StepFinish? then Some(parse(line).session) else None
    ensures SessionOf(lines, parse).None? ==> forall i | 0 <= i < |lines| :: !parse(lines[i]).StepStart? && !parse(lines[i]).StepFinish?
  {
    if lines != [] {
      SessionOfMore(lines[1..], line, parse);
      assert (lines + [line])[1..] == lines[1..] + [line];
      assert forall i | 0 < i < |lines| :: lines[i] == lines[1..][i - 1];
    }
  }

  /** A view shows what was read: the session, the steps started in it, and the steps counted. */
  ghost predicate Justified(v: View, lines: seq<string>, parse: string -> Line, limit: nat) {
    && v.session == SessionOf(lines, parse)
    && (forall m :: m in v.starts <==> v.session.Some? && Started(lines, parse, v.session.value, m))
    && (forall p :: p in v.finishes <==> v.session.Some? && Counted(lines, parse, v.session.value, p))
    && (|v.finishes| >= limit > 0 ==> v.reason.Some?)
  }

  lemma StartedMore(lines: seq<string>, line: string, parse: string -> Line, session: nat, message: nat)
    ensures Started(lines + [line], parse, session, message) <==>
            || Started(lines, parse, session, message)
            || (parse(line).StepStart? && parse(line).session == session && parse(line).message == message)
  {
    var all := lines + [line];
    assert all[|lines|] == line && forall i | 0 <= i < |lines| :: all[i] == lines[i];
  }

  lemma CountedMore(lines: seq<string>, line: string, parse: string -> Line, session: nat, part: nat)
    ensures Counted(lines + [line], parse, session, part) <==>
            || Counted(lines, parse, session, part)
            || (parse(line).StepFinish? && parse(line).session == session && parse(line).part == part &&
                Started(lines, parse, session, parse(line).message))
  {
    var all := lines + [line];
    assert all[|lines|] == line && forall i | 0 <= i < |lines| :: all[i] == lines[i];
    if Counted(lines, parse, session, part) {
      var i, j :| 0 <= i < j < |lines| && StartedAt(lines, parse, i, j, session, part);
      assert StartedAt(all, parse, i, j, session, part);
    }
    if parse(line).StepFinish? && parse(line).session == session && parse(line).part == part && Started(lines, parse, session, parse(line).message) {
      var i: nat :| i < |lines| && parse(lines[i]).StepStart? && parse(lines[i]).session == session && parse(lines[i]).message == parse(line).message;
      assert StartedAt(all, parse, i, |lines|, session, part);
    }
    if Counted(all, parse, session, part) {
      var i, j :| 0 <= i < j < |all| && StartedAt(all, parse, i, j, session, part);
      assert j < |lines| ==> StartedAt(lines, parse, i, j, session, part);
    }
  }

  /** What one line adds to a view, and what it has to be for that. */
  lemma ApplyGrows(v: View, line: Line, limit: nat)
    requires v.session.None? ==> v.starts == {} && v.finishes == {}
    ensures var v' := Apply(v, line, limit);
            && v'.session == (if v.session.None? && (line.StepStart? || line.StepFinish?) then Some(line.session) else v.session)
            && (forall m :: m in v'.starts <==> m in v.starts || (line.StepStart? && line.message == m && v'.session == Some(line.session)))
            && (forall p :: p in v'.finishes <==>
                  p in v.finishes || (line.StepFinish? && line.part == p && v'.session == Some(line.session) && line.message in v.starts))
            && (v.reason.Some? ==> v'.reason.Some?)
            && (v'.finishes != v.finishes && |v'.finishes| >= limit > 0 ==> v'.reason.Some?)
  {
  }

  lemma ApplyJustified(v: View, lines: seq<string>, line: string, parse: string -> Line, limit: nat)
    requires Justified(v, lines, parse, limit)
    ensures Justified(Apply(v, parse(line), limit), lines + [line], parse, limit)
  {
    hide Apply, Counted, Started, StartedAt;
    NothingBefore(v, lines, parse, limit);
    ApplyGrows(v, parse(line), limit);
    SessionOfMore(lines, line, parse);
    var v' := Apply(v, parse(line), limit);
    if v'.session.Some? {
      var session := v'.session.value;
      forall m
        ensures m in v'.starts <==> Started(lines + [line], parse, session, m)
      {
        StartedMore(lines, line, parse, session, m);
        if v.session.None? {
          NothingIn(lines, parse, session, m, m);
        }
      }
      forall p
        ensures p in v'.finishes <==> Counted(lines + [line], parse, session, p)
      {
        CountedMore(lines, line, parse, session, p);
        if v.session.None? {
          NothingIn(lines, parse, session, if parse(line).StepFinish? then parse(line).message else 0, p);
        }
      }
    }
  }

  /** Nothing was started or counted before the first step event. */
  lemma NothingIn(lines: seq<string>, parse: string -> Line, session: nat, message: nat, part: nat)
    requires SessionOf(lines, parse).None?
    ensures !Started(lines, parse, session, message) && !Counted(lines, parse, session, part)
  {
    SessionOfMore(lines, "", parse);
  }

  lemma NothingBefore(v: View, lines: seq<string>, parse: string -> Line, limit: nat)
    requires Justified(v, lines, parse, limit)
    ensures v.session.None? ==> v.starts == {} && v.finishes == {}
  {
  }

  /** The view shows exactly the steps started and counted in the session, and once the budget is used
      up there is a reason to stop. */
  lemma {:induction false} StepsJustified(done: seq<string>, v: View, lines: seq<string>, parse: string -> Line, limit: nat)
    requires Justified(v, done, parse, limit)
    ensures Justified(Fold(v, lines, parse, limit), done + lines, parse, limit)
    decreases |lines|
  {
    hide Justified, Apply;
    if lines == [] {
      assert done + lines == done;
    } else {
      ApplyJustified(v, done, lines[0], parse, limit);
      StepsJustified(done + [lines[0]], Apply(v, parse(lines[0]), limit), lines[1..], parse, limit);
      assert done + [lines[0]] + lines[1..] == done + lines;
    }
  }

  /** A finished step that counts: its message was started before in the session, and its part is new. */
  ghost predicate Countable(before: seq<string>, line: Line, parse: string -> Line)
    requires line.StepFinish?
  {
    && SessionOf(before, parse) == Some(line.session)
    && Started(before, parse, line.session, line.message) && !Counted(before, parse, line.session, line.part)
  }

  /** The reason the line gives, if any, in the state that reads it. */
  function ReasonOf(v: View, line: Line, limit: nat): Option<StopReason> {
    Apply(v.(reason := None), line, limit).reason
  }

  /** Which reason a line gives, after the lines before it: events that do not parse, are of another
      session or finish no new step are invalid, and a step that counts may use up the budget. */
  lemma ReasonIs(before: seq<string>, line: Line, parse: string -> Line, limit: nat, counted: set<nat>)
    requires forall p :: p in counted <==> exists session :: SessionOf(before, parse) == Some(session) && Counted(before, parse, session, p)
    ensures var why, session := ReasonOf(Fold(EMPTY, before, parse, limit), line, limit), SessionOf(before, parse);
            && (why == Some(HostError) <==> line.ErrorEvent?)
            && (why == Some(InvalidEvents) <==>
                  || line.Malformed? || (line.StepStart? && session.Some? && session.value != line.session)
                  || (line.StepFinish? && !Countable(before, line, parse)))
            && (why == Some(StepBudget) <==> line.StepFinish? && Countable(before, line, parse) && |counted| + 1 >= limit)
            && why in {None, Some(HostError), Some(InvalidEvents), Some(StepBudget)}
  {
    hide Counted, Started, SessionOf;
    Untouched(parse, limit);
    StepsJustified([], EMPTY, before, parse, limit);
    assert [] + before == before;
    assert counted == Fold(EMPTY, before, parse, limit).finishes;
  }

  lemma Untouched(parse: string -> Line, limit: nat)
    ensures Justified(EMPTY, [], parse, limit)
  {
  }

  function Reasons(v: View, lines: seq<string>, parse: string -> Line, limit: nat): seq<StopReason>
    decreases |lines|
  {
    if lines == [] then []
    else
      var why := ReasonOf(v, parse(lines[0]), limit);
      (if why.Some? then [why.value] else []) + Reasons(Apply(v, parse(lines[0]), limit), lines[1..], parse, limit)
  }

  /** The first reason other than the step budget, or else the step budget if it is among them. */
  function Decisive(reasons: seq<StopReason>): Option<StopReason> {
    if reasons == [] then None
    else if reasons[0] != StepBudget then Some(reasons[0])
    else if Decisive(reasons[1..]).Some? then Decisive(reasons[1..]) else Some(StepBudget)
  }

  lemma ApplyReason(v: View, line: Line, limit: nat)
    ensures var why := ReasonOf(v, line, limit);
            Apply(v, line, limit).reason == if why.Some? then Stop(v.reason, why.value) else v.reason
  {
  }

  lemma {:induction false} ReasonIsDecisive(v: View, lines: seq<string>, parse: string -> Line, limit: nat)
    ensures var found := Decisive(Reasons(v, lines, parse, limit));
            Fold(v, lines, parse, limit).reason == if found.None? then v.reason else Stop(v.reason, found.value)
    decreases |lines|
  {
    if lines != [] {
      var line := parse(lines[0]);
      ApplyReason(v, line, limit);
      ReasonIsDecisive(Apply(v, line, limit), lines[1..], parse, limit);
      var why := ReasonOf(v, line, limit);
      var rest := Reasons(Apply(v, line, limit), lines[1..], parse, limit);
      if why.Some? {
        assert Reasons(v, lines, parse, limit) == [why.value] + rest && ([why.value] + rest)[1..] == rest;
      } else {
        assert Reasons(v, lines, parse, limit) == [] + rest == rest;
      }
    }
  }

  /** Without another cause to stop, the reason that is reported is the first one that is not the
      step budget, if there is any. */
  lemma StreamReason(lines: seq<string>, parse: string -> Line, limit: nat)
    ensures Fold(EMPTY, lines, parse, limit).reason == Decisive(Reasons(EMPTY, lines, parse, limit))
  {
    ReasonIsDecisive(EMPTY, lines, parse, limit);
  }

  datatype Ending = Exited | StoppedBy(reason: StopReason)

  /** What is reported once everything has exited: a step budget that nobody had to enforce is none. */
  function Reported(reason: Option<StopReason>, termSent: bool): Ending {
    if reason.None? || (reason.value == StepBudget && !termSent) then Exited else StoppedBy(reason.value)
  }

  predicate OnlyBudget(reasons: seq<StopReason>) {
    forall i | 0 <= i < |reasons| :: reasons[i] == StepBudget
  }

  lemma {:induction false} DecisiveIs(reasons: seq<StopReason>)
    ensures Decisive(reasons).None? <==> reasons == []
    ensures Decisive(reasons) == Some(StepBudget) <==> reasons != [] && OnlyBudget(reasons)
    ensures Decisive(reasons).Some? && !OnlyBudget(reasons) ==>
              exists i | 0 <= i < |reasons| :: reasons[i] == Decisive(reasons).value != StepBudget && OnlyBudget(reasons[..i])
  {
    if reasons != [] && reasons[0] == StepBudget {
      var rest := reasons[1..];
      DecisiveIs(rest);
      assert forall i | 0 <= i < |rest| :: rest[i] == reasons[i + 1];
      assert OnlyBudget(reasons) <==> OnlyBudget(rest);
      if rest != [] && !OnlyBudget(rest) {
        var i :| 0 <= i < |rest| && rest[i] == Decisive(rest).value != StepBudget && OnlyBudget(rest[..i]);
        var k := i + 1;
        assert reasons[..k] == [reasons[0]] + rest[..i];
        assert reasons[k] == Decisive(reasons).value && OnlyBudget(reasons[..k]);
      }
    } else if reasons != [] {
      assert OnlyBudget(reasons[..0]);
    }
  }

  /** The result of a call, without another cause to stop: the first reason that is not the step budget;
      the step budget if there is no other and TERM was sent for it; and otherwise a plain exit. */
  lemma ReportedEnding(lines: seq<string>, parse: string -> Line, limit: nat, termSent: bool)
    ensures var reasons := Reasons(EMPTY, lines, parse, limit);
            var ending := Reported(Fold(EMPTY, lines, parse, limit).reason, termSent);
            && (ending == Exited <==> reasons == [] || (OnlyBudget(reasons) && !termSent))
            && (ending == StoppedBy(StepBudget) <==> reasons != [] && OnlyBudget(reasons) && termSent)
            && (ending.StoppedBy? && ending.reason != StepBudget ==>
                  exists i | 0 <= i < |reasons| :: reasons[i] == ending.reason && OnlyBudget(reasons[..i]))
  {
    StreamReason(lines, parse, limit);
    DecisiveIs(Reasons(EMPTY, lines, parse, limit));
  }

  // ---------------------------------------------------------------- sizes

  /** The length of a character in UTF-8 (section 3 of RFC 3629). */
  function ByteLength(c: char): nat {
    if c as int < 0x80 then 1 else if c as int < 0x800 then 2 else if c as int < 0x1_0000 then 3 else 4
  }

  /** What the length is the length of: six bits in every byte but the first. */
  function Utf8Bytes(v: nat): (bytes: seq<int>)
    requires v < 0x11_0000
  {
    if v < 0x80 then [v]
    else if v < 0x800 then [0xC0 + v / 64, 0x80 + v % 64]
    else if v < 0x1_0000 then [0xE0 + v / 4096, 0x80 + v / 64 % 64, 0x80 + v % 64]
    else [0xF0 + v / 0x4_0000, 0x80 + v / 4096 % 64, 0x80 + v / 64 % 64, 0x80 + v % 64]
  }

  lemma ByteLengthCounts(c: char)
    ensures var bytes := Utf8Bytes(c as int);
            && ByteLength(c) == |bytes| && (forall i | 0 <= i < |bytes| :: 0 <= bytes[i] < 256)
            && Encoded(bytes) && Needed(bytes[0]) == |bytes|
  {
  }

  function Size(s: string): nat {
    if s == "" then 0 else ByteLength(s[0]) + Size(s[1..])
  }

  lemma {:induction false} SizeOfConcat(a: string, b: string)
    ensures Size(a + b) == Size(a) + Size(b)
  {
    if a == "" {
      assert a + b == b;
    } else {
      assert (a + b)[1..] == a[1..] + b;
      SizeOfConcat(a[1..], b);
    }
  }

  /** No line, complete or not, is longer than the limit. */
  ghost predicate Small(s: string) {
    forall i | 0 <= i < |Pieces(s)| :: Size(Pieces(s)[i]) <= 0x80_0000
  }

  /** Then no incomplete line ever was, wherever the text was cut. */
  lemma SmallPrefix(a: string, b: string)
    requires Small(a + b)
    ensures Size(Rest(a)) <= 0x80_0000
  {
    hide Lines, Rest, Newline, Size;
    LinesOfConcat(a, b);
    var r := Rest(a) + b;
    RestHasNoLine(a);
    NewlineOfConcat(Rest(a), b);
    var k, n := |Lines(a)|, Newline(r);
    assert Pieces(a + b) == Lines(a) + Pieces(r);
    assert Size(Pieces(a + b)[k]) <= 0x80_0000;
    FirstPiece(r);
    assert r[..n] == Rest(a) + b[..n - |Rest(a)|];
    SizeOfConcat(Rest(a), b[..n - |Rest(a)|]);
  }

  lemma FirstPiece(s: string)
    ensures Pieces(s)[0] == s[..Newline(s)]
  {
    if Newline(s) == |s| {
      NoLine(s);
    } else {
      OneLine(s);
    }
  }

  lemma {:induction false} RestHasNoLine(s: string)
    ensures Newline(Rest(s)) == |Rest(s)|
    decreases |s|
  {
    var n := Newline(s);
    if n < |s| {
      RestHasNoLine(s[n + 1..]);
    }
  }

  // ---------------------------------------------------------------- the handlers

  datatype Chunk = Out(data: seq<Byte>) | Err(size: nat)

  function ChunkSize(c: Chunk): nat {
    match c case Out(data) => |data| case Err(size) => size
  }

  function TotalSize(chunks: seq<Chunk>): nat {
    if chunks == [] then 0 else TotalSize(chunks[..|chunks| - 1]) + ChunkSize(chunks[|chunks| - 1])
  }

  /** The standard output, however it was cut. */
  function Output(chunks: seq<Chunk>): seq<Byte> {
    if chunks == [] then []
    else
      var c := chunks[|chunks| - 1];
      Output(chunks[..|chunks| - 1]) + if c.Out? then c.data else []
  }

  /** Only complete characters decode to a line feed. */
  ghost predicate KeepsLines(decode: seq<Byte> -> string) {
    forall held | Partial(held) :: '\n' !in decode(held)
  }

  lemma FoldNothing(v: View, parse: string -> Line, limit: nat)
    ensures Fold(v, [], parse, limit) == v
  {
  }

  lemma OneLine(s: string)
    requires Newline(s) < |s|
    ensures var n := Newline(s); Lines(s) == [s[..n]] + Lines(s[n + 1..]) && Rest(s) == Rest(s[n + 1..])
  {
    hide Newline;
  }

  lemma NoLine(s: string)
    ensures Newline(s) == |s| ==> Lines(s) == [] && Rest(s) == s
  {
  }

  class Model {
    const parse: string -> Line
    const decode: seq<Byte> -> string
    const limit: nat
    /** The bytes that the decoder holds back, and the incomplete line. */
    var held: seq<Byte>
    var pending: string
    var bytes: nat
    var view: View

    constructor (parse: string -> Line, decode: seq<Byte> -> string, limit: nat)
      ensures this.parse == parse && this.decode == decode && this.limit == limit
      ensures held == [] && pending == "" && bytes == 0 && view == EMPTY
    {
      this.parse, this.decode, this.limit, held, pending, bytes, view := parse, decode, limit, [], "", 0, EMPTY;
    }

    method Event(line: string)
      modifies `view
      ensures view == Fold(old(view), [line], parse, limit)
    {
      view := Apply(view, parse(line), limit);
    }

    /** Handle the complete lines of what is pending. */
    method Drain()
      modifies `pending, `view
      ensures pending == Rest(old(pending)) && view == Fold(old(view), Lines(old(pending)), parse, limit)
    {
      hide Fold, Lines, Rest;
      ghost var done: seq<string> := [];
      FoldNothing(view, parse, limit);
      NoLine(pending);
      while Newline(pending) < |pending|
        invariant Lines(old(pending)) == done + Lines(pending) && Rest(pending) == Rest(old(pending))
        invariant view == Fold(old(view), done, parse, limit)
        decreases |pending|
      {
        var newline := Newline(pending);
        OneLine(pending);
        FoldConcat(old(view), done, [pending[..newline]], parse, limit);
        Event(pending[..newline]);
        done := done + [pending[..newline]];
        pending := pending[newline + 1..];
      }
      NoLine(pending);
      assert done + [] == done;
    }

    method Receive(c: Chunk)
      modifies `held, `pending, `bytes, `view
      ensures bytes == old(bytes) + ChunkSize(c)
      ensures bytes > 0x400_0000 ==> held == old(held) && pending == old(pending) && view == Stopped(old(view), OutputLimit)
      ensures bytes <= 0x400_0000 && c.Err? ==> held == old(held) && pending == old(pending) && view == old(view)
      ensures bytes <= 0x400_0000 && c.Out? ==>
                var text := old(pending) + Decoded(old(held) + c.data, decode);
                var read := Fold(old(view), Lines(text), parse, limit);
                && held == Held(old(held) + c.data)
                && if Size(Rest(text)) > 0x80_0000 then pending == "" && view == Stopped(read, OutputLimit)
                   else pending == Rest(text) && view == read
    {
      bytes := bytes + ChunkSize(c);
      if bytes > TOTAL_LIMIT {
        view := Stopped(view, OutputLimit);
        return;
      }
      if c.Out? {
        pending := pending + Decoded(held + c.data, decode);
        held := Held(held + c.data);
        Drain();
        if Size(pending) > LINE_LIMIT {
          pending := "";
          view := Stopped(view, OutputLimit);
        }
      }
    }

    /** The process ended: what is left, an incomplete character included, counts as a line unless it is blank. */
    method Close()
      requires parse("") == Blank
      modifies `held, `pending, `view
      ensures held == [] && pending == "" && view == Fold(old(view), [old(pending) + Flushed(old(held), decode)], parse, limit)
    {
      pending := pending + Flushed(held, decode);
      held := [];
      if pending != "" {
        Event(pending);
      }
      pending := "";
    }

    /** The whole output. Below the limits the result depends only on the bytes, not on their chunks. */
    method Read(chunks: seq<Chunk>)
      requires held == [] && pending == "" && bytes == 0 && view == EMPTY
      requires parse("") == Blank && KeepsLines(decode)
      requires TotalSize(chunks) <= 0x400_0000 && Small(Whole(Output(chunks), decode))
      modifies `held, `pending, `bytes, `view
      ensures view == Fold(EMPTY, Pieces(Whole(Output(chunks), decode)), parse, limit)
    {
      hide Fold, Lines, Rest, Decoded, Held, Partial, Small, Newline, Size;
      var i := 0;
      assert chunks[..0] == [];
      NothingRead(decode, parse, limit);
      while i < |chunks|
        invariant i <= |chunks|
        invariant bytes == TotalSize(chunks[..i]) && held == Held(Output(chunks[..i]))
        invariant pending == Rest(Decoded(Output(chunks[..i]), decode))
        invariant view == Fold(EMPTY, Lines(Decoded(Output(chunks[..i]), decode)), parse, limit)
      {
        ghost var before := chunks[..i];
        assert chunks[..i + 1][..i] == before;
        TotalGrows(chunks, i + 1);
        if chunks[i].Out? {
          DecodedInPieces(Output(before), chunks[i].data, decode);
          var more := Decoded(held + chunks[i].data, decode);
          LinesOfConcat(Decoded(Output(before), decode), more);
          FoldConcat(EMPTY, Lines(Decoded(Output(before), decode)), Lines(pending + more), parse, limit);
          var rest := TextAfter(chunks, i + 1, decode);
          SmallPrefix(Decoded(Output(chunks[..i + 1]), decode), rest);
        } else {
          assert Output(before) + [] == Output(before);
        }
        Receive(chunks[i]);
        i := i + 1;
      }
      assert chunks[..i] == chunks;
      LastPiece(Output(chunks), decode);
      FoldConcat(EMPTY, Lines(Decoded(Output(chunks), decode)), [pending + Flushed(held, decode)], parse, limit);
      Close();
    }
  }

  lemma NothingRead(decode: seq<Byte> -> string, parse: string -> Line, limit: nat)
    ensures Held([]) == [] && Decoded([], decode) == "" && Rest("") == "" && Fold(EMPTY, Lines(""), parse, limit) == EMPTY
  {
  }

  /** What the decoder held back ends in the last line. */
  lemma LastPiece(s: seq<Byte>, decode: seq<Byte> -> string)
    requires KeepsLines(decode)
    ensures Pieces(Whole(s, decode)) == Lines(Decoded(s, decode)) + [Rest(Decoded(s, decode)) + Flushed(Held(s), decode)]
  {
    var text, last := Decoded(s, decode), Flushed(Held(s), decode);
    assert '\n' !in last;
    LinesOfConcat(text, last);
    RestHasNoLine(text);
    NewlineIs(Rest(text) + last, |Rest(text) + last|);
  }

  lemma {:induction false} TotalGrows(chunks: seq<Chunk>, i: nat)
    requires i <= |chunks|
    ensures TotalSize(chunks[..i]) <= TotalSize(chunks)
    decreases |chunks| - i
  {
    if i == |chunks| {
      assert chunks[..i] == chunks;
    } else {
      assert chunks[..i + 1][..i] == chunks[..i];
      TotalGrows(chunks, i + 1);
    }
  }

  /** What the rest of the output adds to the text. */
  lemma TextAfter(chunks: seq<Chunk>, i: nat, decode: seq<Byte> -> string) returns (rest: string)
    requires i <= |chunks|
    ensures Whole(Output(chunks), decode) == Decoded(Output(chunks[..i]), decode) + rest
  {
    hide Decoded, Held, Output, Flushed;
    var later := OutputAfter(chunks, i);
    var first := Output(chunks[..i]);
    DecodedInPieces(first, later, decode);
    rest := Decoded(Held(first) + later, decode) + Flushed(Held(Output(chunks)), decode);
  }

  lemma {:induction false} OutputAfter(chunks: seq<Chunk>, i: nat) returns (rest: seq<Byte>)
    requires i <= |chunks|
    ensures Output(chunks) == Output(chunks[..i]) + rest
    decreases |chunks| - i
  {
    if i == |chunks| {
      assert chunks[..i] == chunks;
      rest := [];
    } else {
      assert chunks[..i + 1][..i] == chunks[..i];
      rest := OutputAfter(chunks, i + 1);
      rest := (if chunks[i].Out? then chunks[i].data else []) + rest;
    }
  }
}
