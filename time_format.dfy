/** The human-friendly duration formatter `getTime`, which both
    distributed workers define identically
    (distributed/jobs/worker.js and distributed/task_worker/worker.js).
    The model takes the elapsed time as a natural number of milliseconds,
    as the doc comment of `getTime` states. */
module TimeFormat {
  import opened Wrappers
  import opened Decimal

  /** One component of the output; a zero component is omitted. */
  function Part(v: nat, unit: string): string {
    if v == 0 then "" else NatToString(v) + unit
  }

  /** Whole minutes, the seconds left over, and the milliseconds left over. */
  function Components(ms: nat): (c: (nat, nat, nat))
    ensures ms == c.0 * 60000 + c.1 * 1000 + c.2
    ensures c.1 < 60 && c.2 < 1000
  {
    var m := ms / 60000;
    var remain := ms % 60000;
    var s := remain / 1000;
    var msT := ms % 1000;
    assert remain == s * 1000 + remain % 1000;
    assert ms == m * 60000 + remain;
    assert msT == remain % 1000;
    (m, s, msT)
  }

  function GetTime(ms: nat): string {
    var c := Components(ms);
    Part(c.0, " min ") + Part(c.1, " sec ") + Part(c.2, " ms")
  }

  // ---------------------------------------------------------------------
  // A reader for the formatter's output, so that the formatter can be
  // proved unambiguous: every duration is printed differently.

  /** Length of the run of digits at the front of `t`. */
  function DigitRun(t: string): (k: nat)
    ensures k <= |t| && AllDigits(t[..k])
    ensures k < |t| ==> !IsDigit(t[k])
  {
    if |t| == 0 || !IsDigit(t[0]) then 0
    else
      var k := 1 + DigitRun(t[1..]);
      assert t[..k] == [t[0]] + t[1..][..k - 1];
      k
  }

  /** Reads `<digits><unit>` from the front of `t`, or nothing (value 0). */
  function ReadPart(t: string, unit: string): (nat, string) {
    var k := DigitRun(t);
    if 0 < k && unit <= t[k..] then (ParseNat(t[..k]), t[k + |unit|..]) else (0, t)
  }

  function ParseTime(t: string): Option<nat> {
    var (m, t1) := ReadPart(t, " min ");
    var (s, t2) := ReadPart(t1, " sec ");
    var (msT, t3) := ReadPart(t2, " ms");
    if t3 == "" then Some(m * 60000 + s * 1000 + msT) else None
  }

  lemma {:induction false} DigitRunOf(d: string, tail: string)
    requires AllDigits(d)
    requires tail != [] ==> !IsDigit(tail[0])
    ensures DigitRun(d + tail) == |d|
  {
    if d != [] {
      assert (d + tail)[1..] == d[1..] + tail;
      DigitRunOf(d[1..], tail);
    }
  }

  lemma ReadOwnPart(v: nat, unit: string, rest: string)
    requires v > 0 && unit != [] && !IsDigit(unit[0])
    ensures ReadPart(Part(v, unit) + rest, unit) == (v, rest)
  {
    var d := NatToString(v);
    var tail := unit + rest;
    var t := d + tail;
    assert Part(v, unit) + rest == t;
    DigitRunOf(d, tail);
    assert t[..|d|] == d;
    assert t[|d|..] == tail;
    assert unit <= t[|d|..];
    assert t[|d| + |unit|..] == rest;
    ParseNatToString(v);
  }

  lemma ReadOtherPart(v: nat, tail: string, unit: string)
    requires tail != [] ==> !IsDigit(tail[0])
    requires !(unit <= tail)
    ensures ReadPart(NatToString(v) + tail, unit) == (0, NatToString(v) + tail)
  {
    var d := NatToString(v);
    DigitRunOf(d, tail);
    assert (d + tail)[|d|..] == tail;
  }

  lemma ReadMilliseconds(c2: nat)
    ensures ReadPart(Part(c2, " ms"), " ms") == (c2, "")
  {
    if c2 > 0 {
      ReadOwnPart(c2, " ms", "");
      assert Part(c2, " ms") + "" == Part(c2, " ms");
    }
  }

  lemma ReadSeconds(c1: nat, c2: nat)
    ensures ReadPart(Part(c1, " sec ") + Part(c2, " ms"), " sec ") == (c1, Part(c2, " ms"))
  {
    var p2, p3 := Part(c1, " sec "), Part(c2, " ms");
    if c1 > 0 {
      ReadOwnPart(c1, " sec ", p3);
    } else {
      assert p2 + p3 == p3;
      if c2 > 0 {
        ReadOtherPart(c2, " ms", " sec ");
      }
    }
  }

  lemma ReadMinutes(c0: nat, c1: nat, c2: nat)
    ensures var p1, p2, p3 := Part(c0, " min "), Part(c1, " sec "), Part(c2, " ms");
            ReadPart(p1 + p2 + p3, " min ") == (c0, p2 + p3)
  {
    var p1, p2, p3 := Part(c0, " min "), Part(c1, " sec "), Part(c2, " ms");
    if c0 > 0 {
      assert p1 + p2 + p3 == p1 + (p2 + p3);
      ReadOwnPart(c0, " min ", p2 + p3);
    } else {
      assert p1 + p2 + p3 == p2 + p3;
      if c1 > 0 {
        assert p2 + p3 == NatToString(c1) + (" sec " + p3);
        assert (" sec " + p3)[1] == 's';
        ReadOtherPart(c1, " sec " + p3, " min ");
      } else {
        assert p2 + p3 == p3;
        if c2 > 0 {
          ReadOtherPart(c2, " ms", " min ");
        }
      }
    }
  }

  /** Reading the formatter's output gives back the duration. */
  lemma ParseGetTime(ms: nat)
    ensures ParseTime(GetTime(ms)) == Some(ms)
  {
    var c := Components(ms);
    ReadMinutes(c.0, c.1, c.2);
    ReadSeconds(c.1, c.2);
    ReadMilliseconds(c.2);
  }

  /** Two different durations are never printed the same way. */
  lemma GetTimeInjective(a: nat, b: nat)
    ensures GetTime(a) == GetTime(b) ==> a == b
  {
    ParseGetTime(a);
    ParseGetTime(b);
  }

  /** Every zero component is omitted, so only zero prints as "". */
  lemma GetTimeEmptyIffZero(ms: nat)
    ensures GetTime(ms) == "" <==> ms == 0
  {
    var c := Components(ms);
    if GetTime(ms) == "" {
      assert |Part(c.0, " min ")| == 0 && |Part(c.1, " sec ")| == 0 && |Part(c.2, " ms")| == 0;
    }
  }

  lemma GetTimeExample()
    ensures GetTime(61005) == "1 min 1 sec 5 ms"
    ensures GetTime(2000) == "2 sec "
  {
    assert Components(61005) == (1, 1, 5);
    assert Components(2000) == (0, 2, 0);
    assert NatToString(1) == "1" && NatToString(2) == "2" && NatToString(5) == "5";
  }
}
