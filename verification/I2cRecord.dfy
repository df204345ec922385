/**
 The record of a blocking call: the flags and ticks that it has read and the accesses that it has
 made, in order. What the wait loops add to it, and what it then says about time and permission.
 */
module I2cRecord {
  import opened Hal
  import opened Words
  import opened I2cBus

  datatype Flag = BUSY | TXIS | RXNE | TCR | TC | STOPF | AF

  /** What a call has seen and done, in order. */
  datatype Seen = Flagged(f: Flag, up: bool) | Ticked(t: u32) | Did(a: Access)

  /** The reading that has to come directly before an access. */
  predicate Permits(e: Seen, a: Access) {
    match a
    case Txdr(_) => e == Flagged(TXIS, true)
    case Rxdr(_) => e == Flagged(RXNE, true)
    case ClearStop => e == Flagged(STOPF, true)
    case Cr2(_, _, _, NoStartStop) => e == Flagged(TCR, true)
    case Cr2(_, _, _, GenerateStartWrite) => e == Flagged(BUSY, false)
    case Cr2(_, _, _, GenerateStartRead) => e == Flagged(BUSY, false) || e == Flagged(TC, true)
    case Cr2(_, _, _, GenerateStop) => false
  }

  function Front(log: seq<Seen>): seq<Seen>
    requires log != []
  {
    log[..|log| - 1]
  }

  function Last(log: seq<Seen>): Seen
    requires log != []
  {
    log[|log| - 1]
  }

  /** The next access may be `a`. */
  predicate May(log: seq<Seen>, a: Access) {
    log != [] && Permits(Last(log), a)
  }

  /** Every access comes directly after a reading that permits it. */
  predicate Proper(log: seq<Seen>) {
    log == [] || (Proper(Front(log)) && (Last(log).Did? ==> May(Front(log), Last(log).a)))
  }

  lemma FrontOfMore(log: seq<Seen>, e: Seen)
    ensures Front(log + [e]) == log && Last(log + [e]) == e
  {
  }

  lemma {:induction false} ProperMore(log: seq<Seen>, e: Seen)
    ensures Proper(log + [e]) <==> Proper(log) && (e.Did? ==> May(log, e.a))
  {
    FrontOfMore(log, e);
  }

  /** A tick that a wait would not put up with. */
  predicate Late(e: Seen, start: u32, timeout: u32) {
    e.Ticked? && Since(e.t, start) > timeout
  }

  /** No tick read from entry `from` on is late. */
  predicate OnTime(log: seq<Seen>, from: nat, start: u32, timeout: u32) {
    |log| <= from || (OnTime(Front(log), from, start, timeout) && !Late(Last(log), start, timeout))
  }

  lemma {:induction false} OnTimeMore(log: seq<Seen>, e: Seen, from: nat, start: u32, timeout: u32)
    requires from <= |log|
    ensures OnTime(log + [e], from, start, timeout) <==> OnTime(log, from, start, timeout) && !Late(e, start, timeout)
  {
    FrontOfMore(log, e);
  }

  lemma {:induction false} OnTimeChain(a: seq<Seen>, b: seq<Seen>, from: nat, start: u32, timeout: u32)
    requires a <= b && from <= |a| && OnTime(a, from, start, timeout) && OnTime(b, |a|, start, timeout)
    ensures OnTime(b, from, start, timeout)
    decreases |b|
  {
    if |b| > |a| {
      OnTimeChain(a, Front(b), from, start, timeout);
    } else {
      assert a == b;
    }
  }

  /** What `OnTime` says of each entry. */
  lemma {:induction false} OnTimeAt(log: seq<Seen>, from: nat, start: u32, timeout: u32, k: nat)
    requires OnTime(log, from, start, timeout) && from <= k < |log|
    ensures log[k].Ticked? ==> Since(log[k].t, start) <= timeout
  {
    if k < |log| - 1 { OnTimeAt(Front(log), from, start, timeout, k); }
  }

  lemma {:induction false} ProperAt(log: seq<Seen>, k: nat)
    requires Proper(log) && k < |log| && log[k].Did?
    ensures k > 0 && Permits(log[k - 1], log[k].a)
  {
    if k < |log| - 1 { ProperAt(Front(log), k); }
  }

  /** The record ends because the time is over: with a tick that is late, or at once if there was no time. */
  predicate RunsOut(log: seq<Seen>, start: u32, timeout: u32) {
    log != [] && if timeout == 0 then Last(log).Flagged? else Late(Last(log), start, timeout)
  }

  // ---- what a wait records -------------------------------------------------------------

  /** The readings of one turn of a wait for `f`: the flag as it should not be, and what is looked at besides. */
  function Turn(f: Flag, status: bool, watch: bool): seq<Seen> {
    if watch then [Flagged(f, status)] + Besides(f) else [Flagged(f, status)]
  }

  /** What is looked at besides. */
  function Besides(f: Flag): seq<Seen> {
    if f == RXNE then [Flagged(AF, false), Flagged(STOPF, false)] else [Flagged(AF, false)]
  }

  /** Nothing but whole turns, each followed by a tick that is not late. */
  predicate Turns(before: seq<Seen>, log: seq<Seen>, f: Flag, status: bool, watch: bool, start: u32, timeout: u32) {
    log == before ||
    (var n := |log| - 1 - |Turn(f, status, watch)|;
     && n >= |before| && log[n..|log| - 1] == Turn(f, status, watch)
     && Last(log).Ticked? && !Late(Last(log), start, timeout)
     && Turns(before, log[..n], f, status, watch, start, timeout))
  }

  /** The whole record of a wait that found its flag, or ran out of time, after `turns`. */
  predicate Waited(turns: seq<Seen>, log: seq<Seen>, f: Flag, status: bool, watch: bool, start: u32, timeout: u32,
                   found: bool) {
    if found then log == turns + [Flagged(f, !status)]
    else TimeIsOver(turns + Turn(f, status, watch), log, start, timeout)
  }

  /** A late tick is read, or none if there was no time to begin with. */
  predicate TimeIsOver(before: seq<Seen>, log: seq<Seen>, start: u32, timeout: u32) {
    if timeout == 0 then log == before
    else log != [] && Front(log) == before && Late(Last(log), start, timeout)
  }

  lemma TurnOf(turns: seq<Seen>, f: Flag)
    ensures turns + [Flagged(f, false)] + Besides(f) == turns + Turn(f, false, true)
  {
  }

  /** The record of the check for a NACK, which waits for the STOP if there is one. */
  predicate Checked(before: seq<Seen>, turns: seq<Seen>, log: seq<Seen>, start: u32, timeout: u32, r: Status) {
    if r == HAL_OK then log == before + [Flagged(AF, false)]
    else
      && Turns(before + [Flagged(AF, true)], turns, STOPF, false, false, start, timeout)
      && (if r == HAL_TIMEOUT then Waited(turns, log, STOPF, false, false, start, timeout, false)
          else log == turns + [Flagged(STOPF, true)] + [Did(ClearStop)])
  }

  lemma {:induction false} TurnsMore(before: seq<Seen>, log: seq<Seen>, f: Flag, status: bool, watch: bool,
                                     start: u32, timeout: u32, t: u32)
    requires Turns(before, log, f, status, watch, start, timeout) && Since(t, start) <= timeout && |log| >= |before|
    ensures Turns(before, log + Turn(f, status, watch) + [Ticked(t)], f, status, watch, start, timeout)
  {
    var more := log + Turn(f, status, watch) + [Ticked(t)];
    assert more[..|log|] == log && more[|log|..|more| - 1] == Turn(f, status, watch);
  }

  /** Waiting is harmless: it adds readings, and no late tick. */
  lemma {:induction false} TurnsAreReadings(before: seq<Seen>, log: seq<Seen>, f: Flag, status: bool, watch: bool,
                                            start: u32, timeout: u32)
    requires Turns(before, log, f, status, watch, start, timeout)
    ensures before <= log && OnTime(log, |before|, start, timeout) && (Proper(before) ==> Proper(log))
    decreases |log|
  {
    if log != before {
      var n := |log| - 1 - |Turn(f, status, watch)|;
      TurnsAreReadings(before, log[..n], f, status, watch, start, timeout);
      assert log[n..] == log[n..|log| - 1] + [Last(log)];
      assert log == log[..n] + log[n..|log| - 1] + [Last(log)];
      TurnAdded(log[..n], |before|, f, status, watch, start, timeout);
      ProperMore(log[..n] + Turn(f, status, watch), Last(log));
      OnTimeMore(log[..n] + Turn(f, status, watch), Last(log), |before|, start, timeout);
    }
  }

  lemma NotInSum(e: Seen, a: seq<Seen>, b: seq<Seen>)
    requires e !in a && e !in b
    ensures e !in a + b
  {
  }

  /** The flag that is waited for is not read in any of them. */
  lemma {:induction false} TurnsLackFlag(before: seq<Seen>, log: seq<Seen>, f: Flag, status: bool, watch: bool,
                                         start: u32, timeout: u32)
    requires Turns(before, log, f, status, watch, start, timeout) && |log| >= |before|
    requires f != AF && (f == STOPF ==> !watch)
    ensures Flagged(f, !status) !in log[|before|..]
    decreases |log|
  {
    var e := Flagged(f, !status);
    if log == before {
      assert log[|before|..] == [];
    } else {
      var turn, n := Turn(f, status, watch), |log| - 1 - |Turn(f, status, watch)|;
      TurnsLackFlag(before, log[..n], f, status, watch, start, timeout);
      NotInSum(e, log[..n][|before|..], turn);
      NotInSum(e, log[..n][|before|..] + turn, [Last(log)]);
      assert log[|before|..] == log[..n][|before|..] + turn + [Last(log)];
    }
  }

  lemma {:induction false} TurnAdded(log: seq<Seen>, from: nat, f: Flag, status: bool, watch: bool,
                                     start: u32, timeout: u32)
    requires from <= |log| && OnTime(log, from, start, timeout)
    ensures var more := log + Turn(f, status, watch);
            OnTime(more, from, start, timeout) && (Proper(log) ==> Proper(more))
  {
    var turn := Turn(f, status, watch);
    ReadingAdded(log, turn[0], from, start, timeout);
    if |turn| == 1 {
      assert log + turn == log + [turn[0]];
    } else {
      ReadingAdded(log + [turn[0]], turn[1], from, start, timeout);
      if |turn| == 2 {
        assert log + turn == log + [turn[0]] + [turn[1]];
      } else {
        ReadingAdded(log + [turn[0]] + [turn[1]], turn[2], from, start, timeout);
        assert log + turn == log + [turn[0]] + [turn[1]] + [turn[2]];
      }
    }
  }

  lemma {:induction false} ReadingAdded(log: seq<Seen>, e: Seen, from: nat, start: u32, timeout: u32)
    requires from <= |log| && OnTime(log, from, start, timeout) && e.Flagged?
    ensures OnTime(log + [e], from, start, timeout) && (Proper(log) ==> Proper(log + [e]))
  {
    ProperMore(log, e);
    OnTimeMore(log, e, from, start, timeout);
  }

  // ---- what a part of a call records ---------------------------------------------------

  const EARLY_STOP := [Flagged(RXNE, false), Flagged(AF, false), Flagged(STOPF, true), Did(ClearStop)]

  /** A STOP was found while waiting for a byte. */
  predicate StoppedEarly(log: seq<Seen>) {
    |log| >= 4 && log[|log| - 4..] == EARLY_STOP
  }

  /** A NACK was seen. */
  predicate Refused(before: seq<Seen>, log: seq<Seen>) {
    exists k :: |before| <= k < |log| && log[k] == Flagged(AF, true)
  }

  /** When the time was looked at last, the latest reading was not that of an empty RXDR. */
  predicate Looked(log: seq<Seen>, timeout: u32) {
    var seen := if timeout == 0 || log == [] then log else Front(log);
    seen != [] && Last(seen) != Flagged(RXNE, false)
  }

  /** Time ran out, in a reception that looks for an early STOP no sooner than after that look. */
  predicate GivenUp(log: seq<Seen>, start: u32, timeout: u32, early: bool) {
    RunsOut(log, start, timeout) && (early ==> Looked(log, timeout))
  }

  /**
   From `before` to `log`: every access has been permitted; a success came in time; a timeout
   means that time ran out, or, if `early` is possible, that the slave stopped the reception; an
   error means a NACK and the STOP after it.
   */
  predicate Went(before: seq<Seen>, log: seq<Seen>, start: u32, timeout: u32, early: bool, r: Status) {
    && before <= log && (Proper(before) ==> Proper(log))
    && (r == HAL_OK ==> OnTime(log, |before|, start, timeout))
    && (r == HAL_TIMEOUT ==> GivenUp(log, start, timeout, early) || (early && StoppedEarly(log)))
    && (r == HAL_ERROR ==> log != [] && Last(log) == Did(ClearStop) && Refused(before, log))
  }

  lemma {:induction false} WentOn(a: seq<Seen>, b: seq<Seen>, c: seq<Seen>, start: u32, timeout: u32, early: bool,
                                  r: Status)
    requires Went(a, b, start, timeout, early, HAL_OK) && Went(b, c, start, timeout, early, r)
    ensures Went(a, c, start, timeout, early, r)
  {
    if r == HAL_OK { OnTimeChain(b, c, |a|, start, timeout); }
    if r == HAL_ERROR {
      var k :| |b| <= k < |c| && c[k] == Flagged(AF, true);
      assert |a| <= k;
    }
  }

  lemma {:induction false} WentNowhere(log: seq<Seen>, start: u32, timeout: u32, early: bool)
    ensures Went(log, log, start, timeout, early, HAL_OK)
  {
  }

  lemma {:induction false} WentTo(log: seq<Seen>, a: Access, start: u32, timeout: u32, early: bool)
    requires May(log, a)
    ensures Went(log, log + [Did(a)], start, timeout, early, HAL_OK)
  {
    ProperMore(log, Did(a));
    OnTimeMore(log, Did(a), |log|, start, timeout);
  }

  lemma {:induction false} FoundWent(before: seq<Seen>, turns: seq<Seen>, log: seq<Seen>, f: Flag, status: bool,
                                     watch: bool, start: u32, timeout: u32, early: bool)
    requires Turns(before, turns, f, status, watch, start, timeout) && log == turns + [Flagged(f, !status)]
    ensures Went(before, log, start, timeout, early, HAL_OK) && Last(log) == Flagged(f, !status)
  {
    TurnsAreReadings(before, turns, f, status, watch, start, timeout);
    ReadingAdded(turns, Flagged(f, !status), |before|, start, timeout);
  }

  lemma {:induction false} LastOfTurn(turns: seq<Seen>, f: Flag, status: bool, watch: bool)
    ensures Last(turns + Turn(f, status, watch)).Flagged?
    ensures f != RXNE || watch ==> Last(turns + Turn(f, status, watch)) != Flagged(RXNE, false)
  {
  }

  lemma {:induction false} NotFoundWent(before: seq<Seen>, turns: seq<Seen>, log: seq<Seen>, f: Flag, status: bool,
                                        watch: bool, start: u32, timeout: u32, early: bool)
    requires Turns(before, turns, f, status, watch, start, timeout)
    requires TimeIsOver(turns + Turn(f, status, watch), log, start, timeout) && (early && f == RXNE ==> watch)
    ensures Went(before, log, start, timeout, early, HAL_TIMEOUT)
  {
    TurnsAreReadings(before, turns, f, status, watch, start, timeout);
    TurnAdded(turns, |before|, f, status, watch, start, timeout);
    LastOfTurn(turns, f, status, watch);
    if timeout != 0 {
      assert log == Front(log) + [Last(log)];
      ProperMore(Front(log), Last(log));
    }
  }

  lemma {:induction false} WaitWent(before: seq<Seen>, turns: seq<Seen>, log: seq<Seen>, f: Flag, status: bool,
                                    watch: bool, start: u32, timeout: u32, early: bool, found: bool)
    requires Turns(before, turns, f, status, watch, start, timeout)
    requires Waited(turns, log, f, status, watch, start, timeout, found) && (early && f == RXNE ==> watch)
    ensures Went(before, log, start, timeout, early, if found then HAL_OK else HAL_TIMEOUT)
    ensures found ==> log != [] && Last(log) == Flagged(f, !status)
  {
    if found {
      FoundWent(before, turns, log, f, status, watch, start, timeout, early);
    } else {
      NotFoundWent(before, turns, log, f, status, watch, start, timeout, early);
    }
  }

  lemma {:induction false} CheckedWent(before: seq<Seen>, turns: seq<Seen>, log: seq<Seen>, start: u32, timeout: u32,
                                       early: bool, r: Status)
    requires Checked(before, turns, log, start, timeout, r) && r in {HAL_ERROR, HAL_TIMEOUT}
    ensures Went(before, log, start, timeout, early, r)
  {
    var entry := before + [Flagged(AF, true)];
    ProperMore(before, Flagged(AF, true));
    TurnsAreReadings(entry, turns, STOPF, false, false, start, timeout);
    if r == HAL_TIMEOUT {
      WaitWent(entry, turns, log, STOPF, false, false, start, timeout, early, false);
    } else {
      ProperMore(turns, Flagged(STOPF, true));
      ProperMore(turns + [Flagged(STOPF, true)], Did(ClearStop));
      assert log[|before|] == entry[|before|] == Flagged(AF, true);
    }
  }

  /** A wait that ended on a NACK did not end on an early STOP. */
  lemma {:induction false} NackIsNotEarly(before: seq<Seen>, turns: seq<Seen>, log: seq<Seen>, start: u32, timeout: u32)
    requires Checked(before, turns, log, start, timeout, HAL_ERROR)
    ensures !StoppedEarly(log)
  {
    var entry := before + [Flagged(AF, true)];
    TurnsAreReadings(entry, turns, STOPF, false, false, start, timeout);
    assert Last(turns) == Flagged(AF, true) || Last(turns).Ticked?;
    assert log[|log| - 3] == Last(turns);
    assert |log| >= 4 ==> log[|log| - 4..][1] == log[|log| - 3];
  }

  /** A watching wait that ends on a NACK. */
  lemma {:induction false} NackWent(before: seq<Seen>, turns: seq<Seen>, stops: seq<Seen>, log: seq<Seen>, f: Flag,
                                    start: u32, timeout: u32, early: bool, r: Status)
    requires Turns(before, turns, f, false, true, start, timeout)
    requires Checked(turns + [Flagged(f, false)], stops, log, start, timeout, r) && r in {HAL_ERROR, HAL_TIMEOUT}
    ensures Went(before, log, start, timeout, early, r)
  {
    TurnsAreReadings(before, turns, f, false, true, start, timeout);
    ProperMore(turns, Flagged(f, false));
    CheckedWent(turns + [Flagged(f, false)], stops, log, start, timeout, early, r);
    if r == HAL_ERROR {
      var k :| |turns| + 1 <= k < |log| && log[k] == Flagged(AF, true);
      assert |before| <= k;
    }
  }

  lemma {:induction false} EarlyWent(before: seq<Seen>, turns: seq<Seen>, log: seq<Seen>, start: u32, timeout: u32)
    requires Turns(before, turns, RXNE, false, true, start, timeout) && log == turns + EARLY_STOP
    ensures Went(before, log, start, timeout, true, HAL_TIMEOUT) && StoppedEarly(log)
  {
    TurnsAreReadings(before, turns, RXNE, false, true, start, timeout);
    ProperMore(turns, EARLY_STOP[0]);
    ProperMore(turns + [EARLY_STOP[0]], EARLY_STOP[1]);
    ProperMore(turns + [EARLY_STOP[0]] + [EARLY_STOP[1]], EARLY_STOP[2]);
    ProperMore(turns + [EARLY_STOP[0]] + [EARLY_STOP[1]] + [EARLY_STOP[2]], EARLY_STOP[3]);
    assert log == turns + [EARLY_STOP[0]] + [EARLY_STOP[1]] + [EARLY_STOP[2]] + [EARLY_STOP[3]];
  }

  // ---- whole calls ---------------------------------------------------------------------

  const I2C_TIMEOUT_BUSY: u32 := 25

  /** The bus was never read free, until for longer than I2C_TIMEOUT_BUSY. */
  predicate Occupied(before: seq<Seen>, log: seq<Seen>, start: u32) {
    && |before| < |log| && Late(Last(log), start, I2C_TIMEOUT_BUSY) && Flagged(BUSY, false) !in log[|before|..]
  }

  /** A call opens by reading the tick, from which all its waits are timed, and waits for a free bus. */
  predicate Opened(before: seq<Seen>, log: seq<Seen>, start: u32, r: Status) {
    && before <= log && |before| < |log| && log[|before|] == Ticked(start) && (Proper(before) ==> Proper(log))
    && (if r == HAL_OK
        then Last(log) == Flagged(BUSY, false) && OnTime(log, |before|, start, I2C_TIMEOUT_BUSY)
        else Occupied(before, log, start))
  }

  lemma {:induction false} BusyWait(before: seq<Seen>, turns: seq<Seen>, log: seq<Seen>, start: u32, r: Status)
    requires Turns(before + [Ticked(start)], turns, BUSY, true, false, start, I2C_TIMEOUT_BUSY)
    requires Waited(turns, log, BUSY, true, false, start, I2C_TIMEOUT_BUSY, r == HAL_OK)
    ensures Opened(before, log, start, r)
  {
    var entry := before + [Ticked(start)];
    ProperMore(before, Ticked(start));
    OnTimeMore(before, Ticked(start), |before|, start, I2C_TIMEOUT_BUSY);
    TurnsAreReadings(entry, turns, BUSY, true, false, start, I2C_TIMEOUT_BUSY);
    WaitWent(entry, turns, log, BUSY, true, false, start, I2C_TIMEOUT_BUSY, false, r == HAL_OK);
    if r == HAL_OK {
      OnTimeChain(entry, log, |before|, start, I2C_TIMEOUT_BUSY);
    } else {
      TurnsLackFlag(entry, turns, BUSY, true, false, start, I2C_TIMEOUT_BUSY);
      assert turns[|before|..] == [Ticked(start)] + turns[|entry|..];
      assert log == turns + [Flagged(BUSY, true)] + [Last(log)];
      assert log[|before|..] == turns[|before|..] + [Flagged(BUSY, true)] + [Last(log)];
    }
  }

  /**
   The record of a whole call that was accepted: every access was permitted; HAL_TIMEOUT means that
   time ran out, that the bus was never free, or, if `early` is possible, that the slave stopped the
   reception; HAL_ERROR means a NACK; HAL_ERROR and HAL_OK come after the STOP, and HAL_OK in time.
   */
  predicate Called(before: seq<Seen>, log: seq<Seen>, timeout: u32, early: bool, r: Status) {
    && before <= log && |before| < |log| && log[|before|].Ticked? && (Proper(before) ==> Proper(log))
    && var start := log[|before|].t;
       && (r == HAL_TIMEOUT ==>
             GivenUp(log, start, timeout, early) || Occupied(before, log, start) || (early && StoppedEarly(log)))
       && (r in {HAL_OK, HAL_ERROR} ==> Last(log) == Did(ClearStop))
       && (r == HAL_ERROR ==> Refused(before, log))
       && (r == HAL_OK ==> OnTime(log, |before|, start, Longer(timeout)))
  }

  function Longer(timeout: u32): u32 {
    if timeout > I2C_TIMEOUT_BUSY then timeout else I2C_TIMEOUT_BUSY
  }

  lemma {:induction false} OnTimeLonger(log: seq<Seen>, from: nat, start: u32, short: u32, long: u32)
    requires OnTime(log, from, start, short) && short <= long
    ensures OnTime(log, from, start, long)
    decreases |log|
  {
    if |log| > from { OnTimeLonger(Front(log), from, start, short, long); }
  }

  lemma {:induction false} NotOpened(before: seq<Seen>, log: seq<Seen>, start: u32, timeout: u32, early: bool)
    requires Opened(before, log, start, HAL_TIMEOUT)
    ensures Called(before, log, timeout, early, HAL_TIMEOUT)
  {
  }

  lemma {:induction false} CallOf(before: seq<Seen>, entered: seq<Seen>, log: seq<Seen>, start: u32, timeout: u32,
                                  early: bool, r: Status)
    requires Opened(before, entered, start, HAL_OK) && Went(entered, log, start, timeout, early, r)
    requires r == HAL_OK ==> log != [] && Last(log) == Did(ClearStop)
    ensures Called(before, log, timeout, early, r)
  {
    assert log[|before|] == entered[|before|];
    if r == HAL_OK {
      OnTimeLonger(entered, |before|, start, I2C_TIMEOUT_BUSY, Longer(timeout));
      OnTimeLonger(log, |entered|, start, timeout, Longer(timeout));
      OnTimeChain(entered, log, |before|, start, Longer(timeout));
    }
    if r == HAL_ERROR {
      var k :| |entered| <= k < |log| && log[k] == Flagged(AF, true);
      assert |before| <= k;
    }
  }

  /**
   HAL_TIMEOUT is about time, or a bus that was never free, iff the call did not end on a STOP that
   was found, and no NACK, while a byte was awaited.
   */
  lemma TimedOutIff(before: seq<Seen>, log: seq<Seen>, timeout: u32, early: bool)
    requires Called(before, log, timeout, early, HAL_TIMEOUT)
    ensures var start := log[|before|].t;
            RunsOut(log, start, timeout) || Occupied(before, log, start)
            <==> !(early && |log| >= 4 && log[|log| - 4] == Flagged(RXNE, false) && log[|log| - 3] == Flagged(AF, false)
                   && log[|log| - 2] == Flagged(STOPF, true) && log[|log| - 1] == Did(ClearStop))
  {
    if |log| >= 4 {
      assert StoppedEarly(log) <==> forall i :: 0 <= i < 4 ==> log[|log| - 4..][i] == EARLY_STOP[i];
    }
  }
}
