/**
  The upload token bucket. Time and tokens are real numbers; an acquire is the cap it read, the bytes it asks for and
  the instant at which it holds the lock.
 */
module UploadLimiting {

  datatype Op = Op(cap: nat, bytes: nat, arrival: real)

  datatype Bucket = Bucket(tokens: real, lastTick: real)

  /** Kilobits per second to bytes per second: eight bits to a byte, a thousand bits to a kilobit. */
  function BytesPerSec(cap: nat): (rate: real)
    ensures cap != 0 ==> rate > 0.0
    ensures 8.0 * rate == 1000.0 * cap as real
  {
    cap as real * 1000.0 / 8.0
  }

  /** A zero cap and an empty send pass without touching the bucket. */
  predicate Metered(op: Op) {
    op.cap != 0 && op.bytes != 0
  }

  function Min(x: real, y: real): real {
    if x <= y then x else y
  }

  function Max(x: real, y: real): real {
    if x <= y then y else x
  }

  /** Refill for the time that passed, clamp at two seconds' worth, then charge the whole send at once. */
  function Charged(b: Bucket, rate: real, bytes: nat, now: real): Bucket {
    Bucket(Min(b.tokens + (now - b.lastTick) * rate, rate * 2.0) - bytes as real, now)
  }

  /** The time a sender waits for its debt to be refilled. */
  function Wait(tokens: real, rate: real): real
    requires rate > 0.0
  {
    if tokens < 0.0 then -tokens / rate else 0.0
  }

  function Step(b: Bucket, op: Op): Bucket {
    if Metered(op) then Charged(b, BytesPerSec(op.cap), op.bytes, op.arrival) else b
  }

  /** The bucket after `ops`, in the order in which they held the lock, when it was made at `start`. */
  function After(start: real, ops: seq<Op>): Bucket {
    if ops == [] then Bucket(0.0, start) else Step(After(start, ops[..|ops| - 1]), ops[|ops| - 1])
  }

  /** The clock does not run backwards between two holders of the lock. */
  ghost predicate Timed(start: real, ops: seq<Op>) {
    forall i :: 0 <= i < |ops| && Metered(ops[i]) ==> After(start, ops[..i]).lastTick <= ops[i].arrival
  }

  /** When the last of `ops` may send. */
  function LastRelease(start: real, ops: seq<Op>): real
    requires ops != []
  {
    var op := ops[|ops| - 1];
    if Metered(op) then op.arrival + Wait(After(start, ops).tokens, BytesPerSec(op.cap)) else op.arrival
  }

  /** When operation `j` may send. */
  function Release(start: real, ops: seq<Op>, j: nat): real
    requires j < |ops|
  {
    LastRelease(start, ops[..j + 1])
  }

  function Bytes(ops: seq<Op>): nat {
    if ops == [] then 0
    else Bytes(ops[..|ops| - 1]) + if Metered(ops[|ops| - 1]) then ops[|ops| - 1].bytes else 0
  }

  lemma TimedPrefix(start: real, ops: seq<Op>, n: nat)
    requires Timed(start, ops) && n <= |ops|
    ensures Timed(start, ops[..n])
  {
    forall i | 0 <= i < n && Metered(ops[..n][i])
      ensures After(start, ops[..n][..i]).lastTick <= ops[..n][i].arrival
    {
      assert ops[..n][..i] == ops[..i];
    }
  }

  // ---------------------------------------------------------------- the object

  type u32 = n: nat | n < 0x1_0000_0000

  /** No metered acquire ever read a cap above `cap`. */
  predicate CapsBelow(ops: seq<Op>, cap: nat) {
    forall i :: 0 <= i < |ops| && Metered(ops[i]) ==> ops[i].cap <= cap
  }

  class UploadLimiter {
    var capKbits: u32
    var seedingEnabled: bool
    var tokens: real
    var lastTick: real
    ghost const start: real
    ghost var trace: seq<Op>
    /** The largest cap that has ever been set. */
    ghost var highest: u32

    ghost predicate Valid()
      reads this
    {
      && Timed(start, trace) && Bucket(tokens, lastTick) == After(start, trace)
      && capKbits <= highest && CapsBelow(trace, highest)
    }

    constructor (now: real)
      ensures Valid() && start == now && trace == [] && highest == 0
      ensures capKbits == 0 && seedingEnabled
    {
      capKbits, seedingEnabled := 0, true;
      tokens, lastTick := 0.0, now;
      start, trace, highest := now, [], 0;
    }

    method SetKbits(cap: u32)
      requires Valid()
      modifies this`capKbits, this`highest
      ensures Valid() && capKbits == cap
      ensures highest == if cap <= old(highest) then old(highest) else cap
    {
      capKbits := cap;
      if highest < cap {
        highest := cap;
      }
    }

    method SetEnabled(enabled: bool)
      modifies this`seedingEnabled
      ensures seedingEnabled == enabled
    {
      seedingEnabled := enabled;
    }

    /** The first step of an acquire: the cap is read before the lock is taken. */
    method LoadCap() returns (cap: u32)
      requires Valid()
      ensures cap == capKbits && cap <= highest
    {
      cap := capKbits;
    }

    /**
      The rest of an acquire, with the cap that it read. The cap may have been changed since, and any number of other
      senders may have been charged in between.
     */
    method Acquire(cap: u32, bytes: nat, now: real) returns (sleep: real)
      requires Valid() && cap <= highest && (cap != 0 && bytes != 0 ==> lastTick <= now)
      modifies this`tokens, this`lastTick, this`trace
      ensures Valid() && trace == old(trace) + [Op(cap, bytes, now)]
      ensures now + sleep == LastRelease(start, trace)
    {
      hide Timed, After, LastRelease;
      ghost var op, before := Op(cap, bytes, now), trace;
      trace := trace + [op];
      TimedSnoc(start, before, op);
      AfterSnoc(start, before, op);
      if cap == 0 || bytes == 0 {
        return 0.0;
      }
      var bytesPerSec := cap as real * 1000.0 / 8.0;
      var elapsed := now - lastTick;
      lastTick := now;
      tokens := Min(tokens + elapsed * bytesPerSec, bytesPerSec * 2.0);
      tokens := tokens - bytes as real;
      if tokens < 0.0 {
        sleep := (-tokens) / bytesPerSec;
      } else {
        sleep := 0.0;
      }
    }

    /** An acquire that nobody gets in the way of uses the cap that is set. */
    method AcquireNow(bytes: nat, now: real) returns (sleep: real)
      requires Valid() && (capKbits != 0 && bytes != 0 ==> lastTick <= now)
      modifies this`tokens, this`lastTick, this`trace
      ensures Valid() && trace == old(trace) + [Op(capKbits, bytes, now)]
      ensures now + sleep == LastRelease(start, trace)
    {
      var cap := LoadCap();
      sleep := Acquire(cap, bytes, now);
    }

    /** At any time the bits of all metered sends released so far fit the largest cap that was ever set. */
    lemma ReleasedFitsHighestCap(t: real)
      requires Valid() && start <= t
      ensures 8.0 * ReleasedBy(start, trace, t) as real <= 1000.0 * highest as real * (t - start)
    {
      hide Timed, CapsBelow, ReleasedBy, After;
      LiveCapBound(start, trace, highest, t);
    }
  }

  /** A zero cap and an empty send change nothing and go at once; any other send is charged in full. */
  lemma FreeSends(start: real, ops: seq<Op>, op: Op)
    ensures op.cap == 0 || op.bytes == 0 ==>
      After(start, ops + [op]) == After(start, ops) && LastRelease(start, ops + [op]) == op.arrival
    ensures op.cap != 0 && op.bytes != 0 ==>
      Bytes(ops + [op]) == Bytes(ops) + op.bytes && After(start, ops + [op]).lastTick == op.arrival
  {
    AfterSnoc(start, ops, op);
    assert (ops + [op])[..|ops|] == ops;
  }

  /**
    One send of `n` bytes under a cap in kilobits: released at its arrival, or when its bits have had time to pass since
    `start`, or two seconds before they have since its arrival, whichever is latest.
   */
  lemma LoneSend(start: real, cap: nat, n: nat, arrival: real)
    requires cap != 0 && n != 0
    ensures var drain := 8.0 * n as real / (1000.0 * cap as real);
      Release(start, [Op(cap, n, arrival)], 0) == Max(arrival, Max(start + drain, arrival - 2.0 + drain))
  {
    var op := Op(cap, n, arrival);
    var rate := BytesPerSec(cap);
    assert [op][..1] == [op] && [op][..0] == [];
    assert FixedRate([op], cap);
    ReleaseIsLevel(start, [op], cap, 0);
    SameDrain(n as real, rate, cap as real);
    assert Level(start, [], rate) == start;
    assert Level(start, [op], rate) == Max(start, arrival - 2.0) + n as real / rate;
  }

  lemma SameDrain(n: real, rate: real, cap: real)
    requires 0.0 < rate && 0.0 < cap && 8.0 * rate == 1000.0 * cap
    ensures n / rate == 8.0 * n / (1000.0 * cap)
  {
    var x := n / rate;
    assert x * rate == n;
    assert 8.0 * n == x * (8.0 * rate);
  }

  lemma AfterSnoc(start: real, ops: seq<Op>, op: Op)
    ensures After(start, ops + [op]) == Step(After(start, ops), op)
    ensures LastRelease(start, ops + [op])
         == op.arrival + if Metered(op) then Wait(Step(After(start, ops), op).tokens, BytesPerSec(op.cap)) else 0.0
  {
  }

  lemma TimedSnoc(start: real, ops: seq<Op>, op: Op)
    requires Timed(start, ops)
    requires Metered(op) ==> After(start, ops).lastTick <= op.arrival
    ensures Timed(start, ops + [op])
  {
    var all := ops + [op];
    forall i | 0 <= i < |all| && Metered(all[i])
      ensures After(start, all[..i]).lastTick <= all[i].arrival
    {
      assert all[..i] == ops[..i];
      assert ops[..|ops|] == ops;
    }
  }

  // ---------------------------------------------------------------- a fixed rate: the greedy shaper

  /** One cap for all metered sends; empty and uncapped ones may come in between. */
  predicate FixedRate(ops: seq<Op>, cap: nat) {
    cap != 0 && forall i :: 0 <= i < |ops| && Metered(ops[i]) ==> ops[i].cap == cap
  }

  function NextLevel(level: real, op: Op, rate: real): real
    requires rate > 0.0
  {
    if Metered(op) then Max(level, op.arrival - 2.0) + op.bytes as real / rate else level
  }

  /** When the bucket would be level again if nothing more arrived: a queue that drains at `rate`. */
  function Level(start: real, ops: seq<Op>, rate: real): real
    requires rate > 0.0
  {
    if ops == [] then start
    else
      NextLevel(Level(start, ops[..|ops| - 1], rate), ops[|ops| - 1], rate)
  }

  /** A lead of `now` over `level`, in bytes. */
  function Lead(now: real, level: real, rate: real): real {
    (now - level) * rate
  }

  lemma MulMin(x: real, y: real, rate: real)
    requires rate > 0.0
    ensures Min(x * rate, y * rate) == Min(x, y) * rate
  {
  }

  lemma ChargeMovesLevel(b: Bucket, level: real, rate: real, bytes: nat, now: real)
    requires rate > 0.0 && b.tokens == Lead(b.lastTick, level, rate)
    ensures Charged(b, rate, bytes, now)
         == Bucket(Lead(now, Max(level, now - 2.0) + bytes as real / rate, rate), now)
  {
    assert b.tokens + (now - b.lastTick) * rate == (now - level) * rate;
    MulMin(now - level, 2.0, rate);
    assert Min(now - level, 2.0) == now - Max(level, now - 2.0);
    assert (bytes as real / rate) * rate == bytes as real;
  }

  /** The tokens are the lead over that level, in bytes. */
  lemma {:induction false} TokensAreLead(start: real, ops: seq<Op>, cap: nat)
    requires FixedRate(ops, cap)
    ensures var rate, b := BytesPerSec(cap), After(start, ops);
      b.tokens == Lead(b.lastTick, Level(start, ops, rate), rate)
  {
    if ops != [] {
      var rate, init, op := BytesPerSec(cap), ops[..|ops| - 1], ops[|ops| - 1];
      TokensAreLead(start, init, cap);
      hide After, BytesPerSec, Charged, Max, Lead;
      assert ops == init + [op];
      AfterSnoc(start, init, op);
      if Metered(op) {
        ChargeMovesLevel(After(start, init), Level(start, init, rate), rate, op.bytes, op.arrival);
      }
    }
  }

  lemma WaitOfLead(now: real, level: real, rate: real)
    requires rate > 0.0
    ensures now + Wait(Lead(now, level, rate), rate) == Max(now, level)
  {
  }

  /** A metered send goes when the queue is level; any other goes at once. */
  lemma ReleaseIsLevel(start: real, ops: seq<Op>, cap: nat, j: nat)
    requires FixedRate(ops, cap) && j < |ops|
    ensures Release(start, ops, j)
         == if Metered(ops[j]) then Max(ops[j].arrival, Level(start, ops[..j + 1], BytesPerSec(cap)))
            else ops[j].arrival
  {
    var upTo := ops[..j + 1];
    assert upTo[|upTo| - 1] == ops[j];
    if Metered(ops[j]) {
      LastOfMetered(start, upTo);
      hide After, Level, BytesPerSec, Wait, Max, Lead;
      TokensAreLead(start, upTo, cap);
      WaitOfLead(ops[j].arrival, Level(start, upTo, BytesPerSec(cap)), BytesPerSec(cap));
    }
  }

  lemma {:induction false} BytesConcat(s: seq<Op>, t: seq<Op>)
    ensures Bytes(s + t) == Bytes(s) + Bytes(t)
  {
    if t == [] {
      assert s + t == s;
    } else {
      assert (s + t)[..|s + t| - 1] == s + t[..|t| - 1];
      BytesConcat(s, t[..|t| - 1]);
    }
  }

  lemma DivAdd(x: nat, y: nat, rate: real)
    requires rate > 0.0
    ensures (x + y) as real / rate == x as real / rate + y as real / rate
  {
  }

  lemma DivNonNegative(x: nat, rate: real)
    requires rate > 0.0
    ensures x as real / rate >= 0.0
  {
  }

  /** Position 0 stands for `start`, position `i` for the `i`-th send if it was metered. */
  predicate Counts(ops: seq<Op>, i: nat) {
    i == 0 || (i <= |ops| && Metered(ops[i - 1]))
  }

  /** One constraint on the level for each busy period: everything since `start`, or everything since arrival `i`. */
  function Term(start: real, ops: seq<Op>, rate: real, i: nat): real
    requires rate > 0.0 && i <= |ops|
  {
    (if i == 0 then start else ops[i - 1].arrival - 2.0) + Bytes(ops[if i == 0 then 0 else i - 1..]) as real / rate
  }

  ghost predicate GreatestTerm(start: real, ops: seq<Op>, rate: real, level: real)
    requires rate > 0.0
  {
    && (forall i :: 0 <= i <= |ops| && Counts(ops, i) ==> Term(start, ops, rate, i) <= level)
    && (exists i :: 0 <= i <= |ops| && Counts(ops, i) && Term(start, ops, rate, i) == level)
  }

  /** The level is the greatest of those terms. */
  lemma {:induction false} LevelIsMaxTerm(start: real, ops: seq<Op>, cap: nat)
    requires FixedRate(ops, cap)
    ensures GreatestTerm(start, ops, BytesPerSec(cap), Level(start, ops, BytesPerSec(cap)))
  {
    hide GreatestTerm, BytesPerSec, NextLevel;
    if ops == [] {
      StartIsOnlyTerm(start, BytesPerSec(cap));
    } else {
      var init, op := ops[..|ops| - 1], ops[|ops| - 1];
      assert ops == init + [op];
      LevelIsMaxTerm(start, init, cap);
      GreatestStep(start, init, op, BytesPerSec(cap), Level(start, init, BytesPerSec(cap)));
    }
  }

  lemma StartIsOnlyTerm(start: real, rate: real)
    requires rate > 0.0
    ensures GreatestTerm(start, [], rate, start)
  {
    assert Counts([], 0) && Term(start, [], rate, 0) == start;
  }

  lemma GreatestStep(start: real, init: seq<Op>, op: Op, rate: real, level: real)
    requires rate > 0.0 && GreatestTerm(start, init, rate, level)
    ensures GreatestTerm(start, init + [op], rate, NextLevel(level, op, rate))
  {
    hide Term;
    var ops := init + [op];
    forall i | 0 <= i <= |init|
      ensures Counts(ops, i) <==> Counts(init, i)
      ensures Term(start, ops, rate, i)
           == Term(start, init, rate, i) + if Metered(op) then op.bytes as real / rate else 0.0
    {
      TermSnoc(start, init, op, rate, i);
    }
    LastTerm(start, init, op, rate);
    var k :| 0 <= k <= |init| && Counts(init, k) && Term(start, init, rate, k) == level;
    assert Counts(ops, k);
    assert Counts(ops, |ops|) <==> Metered(op);
  }

  lemma LastTerm(start: real, init: seq<Op>, op: Op, rate: real)
    requires rate > 0.0
    ensures Metered(op) ==> Term(start, init + [op], rate, |init| + 1) == op.arrival - 2.0 + op.bytes as real / rate
  {
    assert (init + [op])[|init|..] == [op];
    assert [op][..0] == [];
    assert Metered(op) ==> Bytes([op]) == op.bytes;
  }

  lemma TermSnoc(start: real, init: seq<Op>, op: Op, rate: real, i: nat)
    requires rate > 0.0 && i <= |init|
    ensures Term(start, init + [op], rate, i)
         == Term(start, init, rate, i) + if Metered(op) then op.bytes as real / rate else 0.0
  {
    var ops := init + [op];
    var from := if i == 0 then 0 else i - 1;
    assert ops[from..] == init[from..] + [op];
    BytesConcat(init[from..], [op]);
    assert [op][..0] == [];
    DivAdd(Bytes(init[from..]), Bytes([op]), rate);
  }

  /**
    Pre-charging, debt and the clamped refill together are the greedy shaper: a metered send is released at the latest
    of its arrival, the time all bytes since `start` take, and, for every metered send so far, the time the bytes since
    then take less the two-second burst - and at no later time. Other sends neither wait nor count.
   */
  lemma ReleaseClosedForm(start: real, ops: seq<Op>, cap: nat, j: nat)
    requires FixedRate(ops, cap) && j < |ops|
    ensures var rate, upTo, release := BytesPerSec(cap), ops[..j + 1], Release(start, ops, j);
      if !Metered(ops[j]) then release == ops[j].arrival
      else
        && release >= ops[j].arrival
        && (forall i :: 0 <= i <= j + 1 && Counts(upTo, i) ==> release >= Term(start, upTo, rate, i))
        && (release == ops[j].arrival
            || exists i :: 0 <= i <= j + 1 && Counts(upTo, i) && release == Term(start, upTo, rate, i))
  {
    hide BytesPerSec, Level, Release, Term, Counts;
    ReleaseIsLevel(start, ops, cap, j);
    LevelIsMaxTerm(start, ops[..j + 1], cap);
  }

  lemma {:induction false} LevelGrows(start: real, ops: seq<Op>, more: seq<Op>, rate: real)
    requires rate > 0.0
    ensures Level(start, ops + more, rate) >= Level(start, ops, rate) + Bytes(more) as real / rate
  {
    if more == [] {
      assert ops + more == ops;
      assert 0 as real / rate == 0.0;
    } else {
      var init, op := more[..|more| - 1], more[|more| - 1];
      LevelGrows(start, ops, init, rate);
      assert (ops + more)[..|ops + more| - 1] == ops + init;
      DivAdd(Bytes(init), op.bytes, rate);
    }
  }

  lemma DivMulBound(bytes: nat, rate: real, lo: real, hi: real)
    requires rate > 0.0 && bytes as real / rate <= hi - lo
    ensures bytes as real <= rate * (hi - lo)
  {
  }

  lemma LevelNearRelease(start: real, ops: seq<Op>, cap: nat, j: nat)
    requires FixedRate(ops, cap) && j < |ops| && Metered(ops[j])
    ensures var level := Level(start, ops[..j + 1], BytesPerSec(cap));
      level <= Release(start, ops, j) <= level + 2.0
  {
    var rate := BytesPerSec(cap);
    ReleaseIsLevel(start, ops, cap, j);
    DivNonNegative(ops[j].bytes, rate);
    assert ops[..j + 1][..j] == ops[..j];
  }

  /**
    Between the releases of any two metered sends at a fixed rate, no more is sent than that rate allows plus the
    two-second burst.
   */
  lemma RateBound(start: real, ops: seq<Op>, cap: nat, i: nat, j: nat)
    requires FixedRate(ops, cap) && i < j < |ops| && Metered(ops[i]) && Metered(ops[j])
    ensures 8.0 * Bytes(ops[i + 1..j + 1]) as real
         <= 1000.0 * cap as real * (Release(start, ops, j) - Release(start, ops, i) + 2.0)
  {
    hide BytesPerSec, Level, Release, Bytes;
    var rate, sent := BytesPerSec(cap), ops[i + 1..j + 1];
    assert ops[..i + 1] + sent == ops[..j + 1];
    LevelGrows(start, ops[..i + 1], sent, rate);
    LevelNearRelease(start, ops, cap, i);
    LevelNearRelease(start, ops, cap, j);
    var lo, hi := Release(start, ops, i) - 2.0, Release(start, ops, j);
    DivMulBound(Bytes(sent), rate, lo, hi);
    InKilobits(Bytes(sent) as real, rate, cap as real, hi - lo);
  }

  /** The bucket's clock starts at `start` and never runs backwards. */
  lemma {:induction false} TicksGrow(start: real, ops: seq<Op>, i: nat, j: nat)
    requires Timed(start, ops) && i <= j <= |ops|
    ensures start <= After(start, ops[..i]).lastTick <= After(start, ops[..j]).lastTick
    decreases j
  {
    if j > 0 {
      TicksGrow(start, ops, if i < j then i else j - 1, j - 1);
      assert ops[..j][..j - 1] == ops[..j - 1];
    }
  }

  /** At a fixed rate metered sends are released in the order in which they held the lock. */
  lemma ReleasedInOrder(start: real, ops: seq<Op>, cap: nat, i: nat, j: nat)
    requires FixedRate(ops, cap) && Timed(start, ops) && i <= j < |ops| && Metered(ops[i]) && Metered(ops[j])
    ensures Release(start, ops, i) <= Release(start, ops, j)
    ensures start <= ops[i].arrival <= ops[j].arrival
  {
    TicksGrow(start, ops, i, i);
    TicksGrow(start, ops, i + 1, j + 1);
    LastOfMetered(start, ops[..i + 1]);
    LastOfMetered(start, ops[..j + 1]);
    hide BytesPerSec, Level, Release, Bytes, After, LastRelease;
    var rate, more := BytesPerSec(cap), ops[i + 1..j + 1];
    assert ops[..i + 1] + more == ops[..j + 1];
    LevelGrows(start, ops[..i + 1], more, rate);
    DivNonNegative(Bytes(more), rate);
    ReleaseIsLevel(start, ops, cap, i);
    ReleaseIsLevel(start, ops, cap, j);
  }

  // ---------------------------------------------------------------- caps that change while senders wait

  /** Bytes of metered sends that have been released by time `t`. */
  ghost function ReleasedBy(start: real, ops: seq<Op>, t: real): nat {
    if ops == [] then 0
    else
      ReleasedBy(start, ops[..|ops| - 1], t)
      + if Metered(ops[|ops| - 1]) && LastRelease(start, ops) <= t then ops[|ops| - 1].bytes else 0
  }

  /** What cap `cap` lets through in `span` seconds. */
  function Allowed(cap: nat, span: real): real {
    BytesPerSec(cap) * span
  }

  lemma AllowedIsMonotone(c: nat, d: nat, s: real, t: real)
    requires c <= d && s <= t && 0.0 <= t
    ensures Allowed(c, s) <= Allowed(d, t)
  {
    RatesAscend(c, d);
    ProductIsNonNegative(BytesPerSec(c), t - s);
    ProductIsNonNegative(BytesPerSec(d) - BytesPerSec(c), t);
    hide BytesPerSec;
    Distributes(BytesPerSec(c), BytesPerSec(d), s, t);
  }

  lemma RatesAscend(c: nat, d: nat)
    requires c <= d
    ensures 0.0 <= BytesPerSec(c) <= BytesPerSec(d)
  {
  }

  lemma ProductIsNonNegative(x: real, y: real)
    requires 0.0 <= x && 0.0 <= y
    ensures 0.0 <= x * y
  {
  }

  lemma Distributes(x: real, y: real, s: real, t: real)
    ensures y * t - x * s == x * (t - s) + (y - x) * t
  {
  }

  lemma ChargeWithin(b: Bucket, start: real, sent: nat, c: nat, cap: nat, bytes: nat, now: real)
    requires c <= cap && b.lastTick <= now
    requires sent as real + b.tokens <= Allowed(cap, b.lastTick - start)
    ensures (sent + bytes) as real + Charged(b, BytesPerSec(c), bytes, now).tokens <= Allowed(cap, now - start)
  {
  }

  /** All bytes charged so far, less what is still owed, fit the largest rate in use. */
  lemma {:induction false} ChargedWithinRate(start: real, ops: seq<Op>, cap: nat)
    requires Timed(start, ops) && CapsBelow(ops, cap)
    ensures After(start, ops).lastTick >= start
    ensures Bytes(ops) as real + After(start, ops).tokens <= Allowed(cap, After(start, ops).lastTick - start)
  {
    hide BytesPerSec, Charged;
    if ops == [] {
    } else {
      var init, op := ops[..|ops| - 1], ops[|ops| - 1];
      TimedPrefix(start, ops, |ops| - 1);
      ChargedWithinRate(start, init, cap);
      hide Allowed;
      if Metered(op) {
        assert op == ops[|ops| - 1];
        ChargeWithin(After(start, init), start, Bytes(init), op.cap, cap, op.bytes, op.arrival);
        ChargedAt(After(start, init), BytesPerSec(op.cap), op.bytes, op.arrival);
      }
    }
  }

  lemma ChargedAt(b: Bucket, rate: real, bytes: nat, now: real)
    ensures Charged(b, rate, bytes, now).lastTick == now
  {
  }

  lemma DebtIsPaidByRelease(tokens: real, c: nat, d: nat, span: real)
    requires 0 < c <= d
    ensures Allowed(d, span) - tokens <= Allowed(d, span + Wait(tokens, BytesPerSec(c)))
  {
  }

  lemma {:induction false} ReleasedIsCharged(start: real, ops: seq<Op>, t: real)
    ensures ReleasedBy(start, ops, t) <= Bytes(ops)
  {
    if ops != [] {
      ReleasedIsCharged(start, ops[..|ops| - 1], t);
    }
  }

  /**
    Whatever the cap is set to while senders wait - each acquire uses the value it read before it took the lock, and
    uncapped sends may come in between - the bits of the metered sends released by any time fit the largest cap read.
   */
  lemma LiveCapBound(start: real, ops: seq<Op>, cap: nat, t: real)
    requires Timed(start, ops) && CapsBelow(ops, cap) && start <= t
    ensures 8.0 * ReleasedBy(start, ops, t) as real <= 1000.0 * cap as real * (t - start)
  {
    hide ReleasedBy, Timed;
    ReleasedIsAllowed(start, ops, cap, t);
    InKilobits(ReleasedBy(start, ops, t) as real, BytesPerSec(cap), cap as real, t - start);
  }

  lemma InKilobits(bytes: real, rate: real, cap: real, span: real)
    requires 8.0 * rate == 1000.0 * cap && bytes <= rate * span
    ensures 8.0 * bytes <= 1000.0 * cap * span
  {
    assert 8.0 * (rate * span) == (8.0 * rate) * span;
  }

  lemma {:induction false} ReleasedIsAllowed(start: real, ops: seq<Op>, cap: nat, t: real)
    requires Timed(start, ops) && CapsBelow(ops, cap) && start <= t
    ensures ReleasedBy(start, ops, t) as real <= Allowed(cap, t - start)
  {
    if ops == [] {
      AllowedIsMonotone(cap, cap, 0.0, t - start);
    } else {
      var init, op := ops[..|ops| - 1], ops[|ops| - 1];
      var release := LastRelease(start, ops);
      if Metered(op) && release <= t {
        LastOfMetered(start, ops);
        hide *;
        ReleasedIsCharged(start, ops, t);
        ChargedWithinRate(start, ops, cap);
        DebtIsPaidByRelease(After(start, ops).tokens, op.cap, cap, op.arrival - start);
        AllowedIsMonotone(cap, cap, release - start, t - start);
      } else {
        TimedPrefix(start, ops, |ops| - 1);
        ReleasedIsAllowed(start, init, cap, t);
      }
    }
  }

  lemma LastOfMetered(start: real, ops: seq<Op>)
    requires ops != [] && Metered(ops[|ops| - 1])
    ensures var op := ops[|ops| - 1];
      && 0 < op.cap
      && After(start, ops).lastTick == op.arrival
      && LastRelease(start, ops) == op.arrival + Wait(After(start, ops).tokens, BytesPerSec(op.cap))
  {
  }
}
