/**
 * The HP 1050 "HPSystem" synchronisation bus (hpsystem.cpp).
 *
 * Every line is open collector: this node pulls a line low by driving its pin
 * as an output at LOW ("asserting" it) and lets go of it by switching the pin
 * back to an input ("releasing" it). The electrical level of a released line
 * is decided by the other modules on the bus and is an input to the model.
 */
module HpSystem {

  /** The seven bus lines, in the order of the enum in hpsystem.h. */
  datatype Line = PowerOn | PrepareRun | Ready | Start | Stop | Shutdown | StartReq

  /** An 8-bit Arduino pin number. */
  type Pin = x: int | 0 <= x < 256

  /** A pulse length in milliseconds (a 16-bit count). */
  type Millis16 = x: int | 0 <= x < 65536

  /** The length of the start-request and shutdown pulses. */
  const PulseLength: Millis16 := 150

  /** What this node does to the bus, in order: drive a line low, wait, let it go. */
  datatype BusAction = Drive(line: Line) | Wait(ms: Millis16) | Release(line: Line)

  /** The pin-level actions of one pulse. */
  function PulseActions(l: Line, duration: Millis16): seq<BusAction>
  {
    [Drive(l), Wait(duration), Release(l)]
  }

  /**
   * The level a line reads when the bus itself is at `levels` and this node
   * drives the lines in `driven`: a pin this node drives low reads low.
   */
  function Effective(levels: Line -> bool, driven: set<Line>): Line -> bool
  {
    (l: Line) => l !in driven && levels(l)
  }

  /** Open collector: a line this node drives reads low whatever the bus does, and no other reading changes. */
  lemma DrivenReadsLow(levels: Line -> bool, driven: set<Line>, l: Line)
    ensures !Effective(levels, driven + {l})(l)
    ensures forall m :: m != l ==> Effective(levels, driven + {l})(m) == Effective(levels, driven)(m)
  {
  }

  /** A line this node lets go of reads the level the bus decides, and no other reading changes. */
  lemma ReleasedReadsBus(levels: Line -> bool, driven: set<Line>, l: Line)
    ensures Effective(levels, driven - {l})(l) == levels(l)
    ensures forall m :: m != l ==> Effective(levels, driven - {l})(m) == Effective(levels, driven)(m)
  {
  }

  /** How a list of bus actions last touched a line. */
  datatype Touch = Untouched | Drove | Released

  /** The last drive or release of `l` in `actions`; a wait touches no line. */
  function LastTouch(actions: seq<BusAction>, l: Line): Touch
  {
    if actions == [] then Untouched
    else
      var a := actions[|actions| - 1];
      if a == Drive(l) then Drove
      else if a == Release(l) then Released
      else LastTouch(actions[..|actions| - 1], l)
  }

  /** The lines driven once `actions` are done on top of `driven`. */
  function DrivenAfter(driven: set<Line>, actions: seq<BusAction>): set<Line>
  {
    if actions == [] then driven
    else
      var before := DrivenAfter(driven, actions[..|actions| - 1]);
      match actions[|actions| - 1]
      case Drive(m) => before + {m}
      case Release(m) => before - {m}
      case Wait(_) => before
  }

  /** One more action on top of a list. */
  lemma DrivenAfterAppend(driven: set<Line>, actions: seq<BusAction>, a: BusAction)
    ensures a.Drive? ==> DrivenAfter(driven, actions + [a]) == DrivenAfter(driven, actions) + {a.line}
    ensures a.Release? ==> DrivenAfter(driven, actions + [a]) == DrivenAfter(driven, actions) - {a.line}
    ensures a.Wait? ==> DrivenAfter(driven, actions + [a]) == DrivenAfter(driven, actions)
  {
    assert (actions + [a])[..|actions|] == actions;
  }

  /**
   * Reading back after any list of actions: a line last driven reads low, a
   * line last released reads the bus level, and a line the list does not
   * touch reads as it did before.
   */
  lemma {:induction false} ReadAfterActions(levels: Line -> bool, driven: set<Line>, actions: seq<BusAction>, l: Line)
    ensures Effective(levels, DrivenAfter(driven, actions))(l) ==
      match LastTouch(actions, l)
      case Untouched => Effective(levels, driven)(l)
      case Drove => false
      case Released => levels(l)
  {
    if actions != [] {
      ReadAfterActions(levels, driven, actions[..|actions| - 1], l);
    }
  }

  // ---------------------------------------------------------------------------
  // The status-flag string

  /** The order in which the flag string lists the lines. */
  const FlagOrder: seq<Line> := [PowerOn, Shutdown, Ready, StartReq, PrepareRun, Start, Stop]

  /** All seven codes, in that order. */
  const AllCodes: string := "PXNrpbe"

  /** The position of a line in the enum, counted from 0. */
  function LineIndex(l: Line): nat
  {
    match l
    case PowerOn => 0
    case PrepareRun => 1
    case Ready => 2
    case Start => 3
    case Stop => 4
    case Shutdown => 5
    case StartReq => 6
  }

  /** The one-character code of each line. */
  function Code(l: Line): char
  {
    match l
    case PowerOn => 'P'
    case Shutdown => 'X'
    case Ready => 'N'
    case StartReq => 'r'
    case PrepareRun => 'p'
    case Start => 'b'
    case Stop => 'e'
  }

  /**
   * Whether a line is reported: POWERON when it reads high, every other line
   * when it reads low.
   */
  predicate Reported(l: Line, read: Line -> bool)
  {
    if l == PowerOn then read(l) else !read(l)
  }

  /** The contribution of one line: its code if it is reported, nothing otherwise. */
  function Part(l: Line, read: Line -> bool): string
  {
    if Reported(l, read) then [Code(l)] else []
  }

  /** The codes of the reported lines of `order`, kept in that order. */
  function FlagsOf(order: seq<Line>, read: Line -> bool): (s: string)
    ensures |s| <= |order|
  {
    if order == [] then [] else Part(order[0], read) + FlagsOf(order[1..], read)
  }

  /**
   * The flag string for a given set of line readings: one optional code per
   * line, in the fixed order POWERON, SHUTDOWN, READY, STARTREQ, PREPARERUN,
   * START, STOP.
   */
  function Flags(read: Line -> bool): string
  {
    Part(PowerOn, read) + Part(Shutdown, read) + Part(Ready, read)
      + Part(StartReq, read) + Part(PrepareRun, read) + Part(Start, read) + Part(Stop, read)
  }

  /** `s` is obtained from `t` by deleting characters. */
  ghost predicate Subsequence(s: string, t: string)
    decreases |t|
  {
    if s == [] then true
    else if t == [] then false
    else (s[0] == t[0] && Subsequence(s[1..], t[1..])) || Subsequence(s, t[1..])
  }

  /** No character occurs twice. */
  ghost predicate NoRepeats(s: string)
  {
    forall i, j :: 0 <= i < j < |s| ==> s[i] != s[j]
  }

  function Codes(order: seq<Line>): (s: string)
    ensures |s| == |order|
    ensures forall i :: 0 <= i < |order| ==> s[i] == Code(order[i])
  {
    if order == [] then [] else [Code(order[0])] + Codes(order[1..])
  }

  lemma {:induction false} FlagsOfSubsequence(order: seq<Line>, read: Line -> bool)
    ensures Subsequence(FlagsOf(order, read), Codes(order))
    decreases |order|
  {
    if order != [] {
      var rest := FlagsOf(order[1..], read);
      FlagsOfSubsequence(order[1..], read);
      var c := Codes(order);
      assert c[1..] == Codes(order[1..]);
      if Reported(order[0], read) {
        assert FlagsOf(order, read) == [Code(order[0])] + rest;
        assert ([Code(order[0])] + rest)[1..] == rest;
      } else {
        assert FlagsOf(order, read) == rest;
        SubsequenceDropHead(rest, c);
      }
    }
  }

  lemma {:induction false} SubsequenceDropHead(s: string, t: string)
    requires |t| > 0 && Subsequence(s, t[1..])
    ensures Subsequence(s, t)
  {
  }

  lemma {:induction false} FlagsOfMembership(order: seq<Line>, read: Line -> bool, c: char)
    ensures c in FlagsOf(order, read) <==> exists i :: 0 <= i < |order| && Code(order[i]) == c && Reported(order[i], read)
    decreases |order|
  {
    if order != [] {
      FlagsOfMembership(order[1..], read, c);
      var rest := FlagsOf(order[1..], read);
      if exists i :: 0 <= i < |order| && Code(order[i]) == c && Reported(order[i], read) {
        var i :| 0 <= i < |order| && Code(order[i]) == c && Reported(order[i], read);
        if i > 0 {
          assert order[1..][i - 1] == order[i];
        }
      }
      if exists i :: 0 <= i < |order[1..]| && Code(order[1..][i]) == c && Reported(order[1..][i], read) {
        var i :| 0 <= i < |order[1..]| && Code(order[1..][i]) == c && Reported(order[1..][i], read);
        assert order[i + 1] == order[1..][i];
      }
    }
  }

  /** The flag string lists only codes of "PXNrpbe", in that order, at most seven of them. */
  lemma FlagsInOrder(read: Line -> bool)
    ensures |Flags(read)| <= 7
    ensures Subsequence(Flags(read), AllCodes)
  {
    FlagsFold(read);
    FlagsOfSubsequence(FlagOrder, read);
    assert Codes(FlagOrder) == AllCodes;
  }

  lemma {:induction false} SubsequenceOfDistinct(s: string, t: string)
    requires Subsequence(s, t) && NoRepeats(t)
    ensures NoRepeats(s)
    ensures forall c :: c in s ==> c in t
    decreases |t|
  {
    if s != [] && t != [] {
      assert NoRepeats(t[1..]);
      if s[0] == t[0] && Subsequence(s[1..], t[1..]) {
        SubsequenceOfDistinct(s[1..], t[1..]);
        forall i, j | 0 <= i < j < |s| ensures s[i] != s[j] {
          if i == 0 {
            assert s[j] == s[1..][j - 1];
            assert s[j] in t[1..];
          } else {
            assert s[i] == s[1..][i - 1] && s[j] == s[1..][j - 1];
          }
        }
        forall c | c in s ensures c in t {
          if c != s[0] {
            var k :| 0 <= k < |s| && s[k] == c;
            assert s[1..][k - 1] == c;
            assert c in s[1..];
            assert c in t[1..];
          }
        }
      } else {
        SubsequenceOfDistinct(s, t[1..]);
      }
    }
  }

  lemma CodesDistinct()
    ensures NoRepeats(AllCodes)
  {
  }

  /** No code appears twice in the flag string. */
  lemma FlagsNoRepeats(read: Line -> bool)
    ensures NoRepeats(Flags(read))
  {
    FlagsInOrder(read);
    CodesDistinct();
    SubsequenceOfDistinct(Flags(read), AllCodes);
  }

  /**
   * Each line's code appears exactly when that line is reported: 'P' iff
   * POWERON reads high, each of 'X','N','r','p','b','e' iff its line reads low.
   */
  lemma FlagPresence(read: Line -> bool, l: Line)
    ensures Code(l) in Flags(read) <==> Reported(l, read)
  {
    FlagsFold(read);
    FlagsOfMembership(FlagOrder, read, Code(l));
    assert l == FlagOrder[0] || l == FlagOrder[1] || l == FlagOrder[2] || l == FlagOrder[3]
      || l == FlagOrder[4] || l == FlagOrder[5] || l == FlagOrder[6];
  }

  /** With every line high (nothing pulled low), the flag string is exactly "P". */
  lemma AllHighIsP(read: Line -> bool)
    requires forall l :: read(l)
    ensures Flags(read) == "P"
  {
  }

  // ---------------------------------------------------------------------------
  // The bus object

  class Bus {
    const poweronPin: Pin
    const preparerunPin: Pin
    const readyPin: Pin
    const startPin: Pin
    const stopPin: Pin
    const shutdownPin: Pin
    const startreqPin: Pin

    /** The lines this node currently pulls low (pin in OUTPUT mode at LOW). */
    var driven: set<Line>
    /** Everything this node has done to the bus so far. */
    var log: seq<BusAction>

    /** Stores the seven pins; every pin starts as an input, so no line is driven. */
    constructor (poweron: Pin, preparerun: Pin, ready: Pin, start: Pin, stop: Pin, shutdown: Pin, startreq: Pin)
      ensures poweronPin == poweron && preparerunPin == preparerun && readyPin == ready
      ensures startPin == start && stopPin == stop && shutdownPin == shutdown && startreqPin == startreq
      ensures driven == {} && log == []
      ensures Explained()
    {
      poweronPin, preparerunPin, readyPin := poweron, preparerun, ready;
      startPin, stopPin, shutdownPin, startreqPin := start, stop, shutdown, startreq;
      driven, log := {}, [];
    }

    /** The driven lines are those the logged actions leave driven, on a bus that started with none. */
    predicate Explained()
      reads this
    {
      driven == DrivenAfter({}, log)
    }

    /**
     * read_line follows the log: a line reads low when this node last drove
     * it, and otherwise reads the level the bus is at.
     */
    lemma ReadLineFollowsLog(levels: Line -> bool, l: Line)
      requires Explained()
      ensures ReadLine(l, levels) == (LastTouch(log, l) != Drove && levels(l))
    {
      ReadAfterActions(levels, {}, log, l);
    }

    /** The pin configured for a line. */
    function LinePin(l: Line): Pin
    {
      match l
      case PowerOn => poweronPin
      case PrepareRun => preparerunPin
      case Ready => readyPin
      case Start => startPin
      case Stop => stopPin
      case Shutdown => shutdownPin
      case StartReq => startreqPin
    }

    /** The pins in the order of the constructor's parameters. */
    function Pins(): seq<Pin>
    {
      [poweronPin, preparerunPin, readyPin, startPin, stopPin, shutdownPin, startreqPin]
    }

    predicate DistinctPins()
    {
      forall i, j :: 0 <= i < j < 7 ==> Pins()[i] != Pins()[j]
    }

    /** When the seven configured pins are distinct, no two lines share a pin. */
    lemma LinePinInjective(l1: Line, l2: Line)
      requires DistinctPins()
      ensures LinePin(l1) == LinePin(l2) ==> l1 == l2
    {
      assert LinePin(l1) == Pins()[LineIndex(l1)] && LinePin(l2) == Pins()[LineIndex(l2)];
      if LineIndex(l1) < LineIndex(l2) {
        assert Pins()[LineIndex(l1)] != Pins()[LineIndex(l2)];
      } else if LineIndex(l2) < LineIndex(l1) {
        assert Pins()[LineIndex(l2)] != Pins()[LineIndex(l1)];
      }
    }

    /** assert_line: pull the line low. */
    method AssertLine(l: Line)
      modifies this
      ensures old(Explained()) ==> Explained()
      ensures driven == old(driven) + {l}
      ensures log == old(log) + [Drive(l)]
      ensures forall levels: Line -> bool :: !ReadLine(l, levels)
      ensures forall levels: Line -> bool, m :: m != l ==> ReadLine(m, levels) == old(ReadLine(m, levels))
    {
      DrivenAfterAppend({}, log, Drive(l));
      driven := driven + {l};
      log := log + [Drive(l)];
    }

    /** release_line: let the line float back to the level the bus decides. */
    method ReleaseLine(l: Line)
      modifies this
      ensures old(Explained()) ==> Explained()
      ensures driven == old(driven) - {l}
      ensures log == old(log) + [Release(l)]
      ensures forall levels: Line -> bool :: ReadLine(l, levels) == levels(l)
      ensures forall levels: Line -> bool, m :: m != l ==> ReadLine(m, levels) == old(ReadLine(m, levels))
    {
      DrivenAfterAppend({}, log, Release(l));
      driven := driven - {l};
      log := log + [Release(l)];
    }

    /** set_line: true asserts the line, false releases it. */
    method SetLine(l: Line, value: bool)
      modifies this
      ensures old(Explained()) ==> Explained()
      ensures value ==> driven == old(driven) + {l} && log == old(log) + [Drive(l)]
      ensures !value ==> driven == old(driven) - {l} && log == old(log) + [Release(l)]
      ensures forall levels: Line -> bool :: ReadLine(l, levels) == (!value && levels(l))
      ensures forall levels: Line -> bool, m :: m != l ==> ReadLine(m, levels) == old(ReadLine(m, levels))
    {
      if value {
        AssertLine(l);
      } else {
        ReleaseLine(l);
      }
    }

    /** pulse_line: assert, wait, release; the line is left released. */
    method PulseLine(l: Line, duration: Millis16)
      modifies this
      ensures old(Explained()) ==> Explained()
      ensures driven == old(driven) - {l}
      ensures log == old(log) + PulseActions(l, duration)
      ensures forall levels: Line -> bool :: ReadLine(l, levels) == levels(l)
      ensures forall levels: Line -> bool, m :: m != l ==> ReadLine(m, levels) == old(ReadLine(m, levels))
    {
      AssertLine(l);
      DrivenAfterAppend({}, log, Wait(duration));
      log := log + [Wait(duration)];
      ReleaseLine(l);
    }

    /** startreq: a 150 ms pulse on STARTREQ; no other line is touched. */
    method StartRequest()
      modifies this
      ensures old(Explained()) ==> Explained()
      ensures driven == old(driven) - {StartReq}
      ensures log == old(log) + PulseActions(StartReq, PulseLength)
      ensures forall levels: Line -> bool :: ReadLine(StartReq, levels) == levels(StartReq)
      ensures forall levels: Line -> bool, m :: m != StartReq ==> ReadLine(m, levels) == old(ReadLine(m, levels))
    {
      PulseLine(StartReq, PulseLength);
    }

    /** shutdown: a 150 ms pulse on SHUTDOWN; no other line is touched. */
    method SignalShutdown()
      modifies this
      ensures old(Explained()) ==> Explained()
      ensures driven == old(driven) - {Shutdown}
      ensures log == old(log) + PulseActions(Shutdown, PulseLength)
      ensures forall levels: Line -> bool :: ReadLine(Shutdown, levels) == levels(Shutdown)
      ensures forall levels: Line -> bool, m :: m != Shutdown ==> ReadLine(m, levels) == old(ReadLine(m, levels))
    {
      PulseLine(Shutdown, PulseLength);
    }

    /** read_line: the level of a line as this node sees it. */
    function ReadLine(l: Line, levels: Line -> bool): bool
      reads this
    {
      l !in driven && levels(l)
    }

    /** isShutdown: the SHUTDOWN line reads low. */
    function IsShutdown(levels: Line -> bool): (down: bool)
      reads this
      ensures down <==> 'X' in Flags(Effective(levels, driven))
    {
      FlagPresence(Effective(levels, driven), Shutdown);
      !ReadLine(Shutdown, levels)
    }

    /**
     * getFlagString: appends one code per reported line, in a fixed order.
     * The NUL-terminated 8-character buffer of the source becomes the string
     * of the characters before the terminator.
     */
    method FlagString(levels: Line -> bool) returns (s: string)
      ensures s == Flags(Effective(levels, driven))
    {
      ghost var read := Effective(levels, driven);
      s := [];
      if ReadLine(PowerOn, levels) {
        s := s + ['P'];
      }
      assert s == Part(PowerOn, read);
      if !ReadLine(Shutdown, levels) {
        s := s + ['X'];
      }
      assert s == Part(PowerOn, read) + Part(Shutdown, read);
      if !ReadLine(Ready, levels) {
        s := s + ['N'];
      }
      assert s == Part(PowerOn, read) + Part(Shutdown, read) + Part(Ready, read);
      if !ReadLine(StartReq, levels) {
        s := s + ['r'];
      }
      assert s == Part(PowerOn, read) + Part(Shutdown, read) + Part(Ready, read) + Part(StartReq, read);
      if !ReadLine(PrepareRun, levels) {
        s := s + ['p'];
      }
      assert s == Part(PowerOn, read) + Part(Shutdown, read) + Part(Ready, read) + Part(StartReq, read) + Part(PrepareRun, read);
      if !ReadLine(Start, levels) {
        s := s + ['b'];
      }
      assert s == Part(PowerOn, read) + Part(Shutdown, read) + Part(Ready, read) + Part(StartReq, read) + Part(PrepareRun, read) + Part(Start, read);
      if !ReadLine(Stop, levels) {
        s := s + ['e'];
      }
      assert s == Part(PowerOn, read) + Part(Shutdown, read) + Part(Ready, read) + Part(StartReq, read) + Part(PrepareRun, read) + Part(Start, read) + Part(Stop, read);
    }
  }

  lemma Extend(done: string, part: string, rest: string, whole: string)
    requires done + (part + rest) == whole
    ensures (done + part) + rest == whole
  {
  }

  /** The flag string is the codes of the reported lines, taken in FlagOrder. */
  lemma FlagsFold(read: Line -> bool)
    ensures Flags(read) == FlagsOf(FlagOrder, read)
  {
    var o1: seq<Line> := [Shutdown, Ready, StartReq, PrepareRun, Start, Stop];
    var o2: seq<Line> := [Ready, StartReq, PrepareRun, Start, Stop];
    var o3: seq<Line> := [StartReq, PrepareRun, Start, Stop];
    var o4: seq<Line> := [PrepareRun, Start, Stop];
    var o5: seq<Line> := [Start, Stop];
    var o6: seq<Line> := [Stop];
    var whole := FlagsOf(FlagOrder, read);
    FlagsOfCons(FlagOrder, read, PowerOn, o1);
    var d := Part(PowerOn, read);
    FlagsOfCons(o1, read, Shutdown, o2);
    Extend(d, Part(Shutdown, read), FlagsOf(o2, read), whole);
    d := d + Part(Shutdown, read);
    FlagsOfCons(o2, read, Ready, o3);
    Extend(d, Part(Ready, read), FlagsOf(o3, read), whole);
    d := d + Part(Ready, read);
    FlagsOfCons(o3, read, StartReq, o4);
    Extend(d, Part(StartReq, read), FlagsOf(o4, read), whole);
    d := d + Part(StartReq, read);
    FlagsOfCons(o4, read, PrepareRun, o5);
    Extend(d, Part(PrepareRun, read), FlagsOf(o5, read), whole);
    d := d + Part(PrepareRun, read);
    FlagsOfCons(o5, read, Start, o6);
    Extend(d, Part(Start, read), FlagsOf(o6, read), whole);
    d := d + Part(Start, read);
    FlagsOfCons(o6, read, Stop, []);
    Extend(d, Part(Stop, read), FlagsOf([], read), whole);
    d := d + Part(Stop, read);
    assert d + [] == d;
  }

  lemma FlagsOfCons(order: seq<Line>, read: Line -> bool, head: Line, tail: seq<Line>)
    requires order == [head] + tail
    ensures FlagsOf(order, read) == Part(head, read) + FlagsOf(tail, read)
  {
    assert order[0] == head && order[1..] == tail;
  }

  /** isShutdown holds exactly when SHUTDOWN reads low, and then 'X' is flagged. */
  lemma ShutdownFlagged(read: Line -> bool)
    ensures !read(Shutdown) <==> 'X' in Flags(read)
  {
    FlagPresence(read, Shutdown);
  }
}
