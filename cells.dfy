/** The cell-voltage leg's numeric work in src/api.rs: decoding the `PSet`
    list, the raw average, the sanitising pass, `voltage_stats` and the
    combination of the two partitions into `overall`. Voltages are mV. */
module Cells {
  import opened Wrappers
  import opened Ints
  import opened Fields

  /** The plausible range; readings outside it are replaced when sanitising. */
  const SafeLow: u16 := 3000
  const SafeHigh: u16 := 4200
  /** `right` is the first 72 cells, `left` the rest. */
  const RightCells: nat := 72
  /** The most samples whose sum fits `voltage_stats`'s u32 accumulator:
      65537 * 65535 == 2^32 - 1. */
  const MaxCells: nat := 65537

  // ---------------------------------------------------------------------
  // Decoding the cell list

  /** `s.parse::<u16>().unwrap_or(0)` */
  function CellReading(f: string): u16 {
    ParseU16(f).GetOr(0)
  }

  function ParseCells(fields: seq<string>): seq<u16> {
    if fields == [] then [] else [CellReading(fields[0])] + ParseCells(fields[1..])
  }

  /** `.split(',').skip(2).map(|s| s.parse::<u16>().unwrap_or(0)).collect()`
      over the already split fields. */
  function DecodeCells(fields: seq<string>): seq<u16> {
    ParseCells(fields[MinNat(2, |fields|)..])
  }

  lemma {:induction false} ParseCellsAt(fields: seq<string>)
    ensures |ParseCells(fields)| == |fields|
    ensures forall k :: 0 <= k < |fields| ==> ParseCells(fields)[k] == CellReading(fields[k])
  {
    if fields != [] {
      ParseCellsAt(fields[1..]);
    }
  }

  /** The first two fields are dropped and every other field, in order,
      becomes one cell: its u16 value, or 0 when it does not parse. */
  lemma DecodeCellsPositional(fields: seq<string>)
    ensures |DecodeCells(fields)| == if |fields| <= 2 then 0 else |fields| - 2
    ensures forall k :: 0 <= k < |DecodeCells(fields)| ==>
              DecodeCells(fields)[k] == CellReading(fields[k + 2])
  {
    ParseCellsAt(fields[MinNat(2, |fields|)..]);
  }

  /** A cell is 0 exactly when its field is not a u16 or is a zero. */
  lemma CellReadingZero(f: string)
    ensures CellReading(f) == 0 <==> ParseU16(f) == None || ParseU16(f) == Some(0)
    ensures ParseU16(f).Some? ==> CellReading(f) == ParseU16(f).value
  {
  }

  // ---------------------------------------------------------------------
  // Sums, extremes and the truncated mean

  function Sum(s: seq<u16>): nat {
    if s == [] then 0 else Sum(s[..|s| - 1]) + s[|s| - 1] as nat
  }

  function SeqMin(s: seq<u16>): (m: u16)
    requires |s| > 0
    ensures m in s
    ensures forall k :: 0 <= k < |s| ==> m <= s[k]
  {
    if |s| == 1 then s[0] else Min(SeqMin(s[..|s| - 1]), s[|s| - 1])
  }

  function SeqMax(s: seq<u16>): (m: u16)
    requires |s| > 0
    ensures m in s
    ensures forall k :: 0 <= k < |s| ==> s[k] <= m
  {
    if |s| == 1 then s[0] else Max(SeqMax(s[..|s| - 1]), s[|s| - 1])
  }

  lemma {:induction false} SumBounds(s: seq<u16>)
    requires |s| > 0
    ensures |s| * (SeqMin(s) as int) <= Sum(s) <= |s| * (SeqMax(s) as int)
  {
    if |s| > 1 {
      var p, x := s[..|s| - 1], s[|s| - 1];
      SumBounds(p);
      var n := |p|;
      var lo, hi := SeqMin(s) as int, SeqMax(s) as int;
      var plo, phi := SeqMin(p) as int, SeqMax(p) as int;
      assert Sum(s) == Sum(p) + x as int;
      assert lo <= plo && lo <= x as int;
      assert phi <= hi && x as int <= hi;
      MulMono(n, lo, plo);
      MulMono(n, phi, hi);
      MulSucc(n, lo);
      MulSucc(n, hi);
    }
  }

  /** No u32 overflow: every sample is at most 65535. */
  lemma {:induction false} SumAtMost(s: seq<u16>)
    ensures Sum(s) <= |s| * 0xFFFF
  {
    if s != [] {
      SumAtMost(s[..|s| - 1]);
    }
  }

  lemma MulSucc(n: nat, a: int)
    ensures (n + 1) * a == n * a + a
  {
  }

  lemma MulMono(n: nat, a: int, b: int)
    requires a <= b
    ensures n * a <= n * b
  {
  }

  lemma DivBounds(a: nat, n: nat, lo: int, hi: int)
    requires n > 0 && n * lo <= a <= n * hi
    ensures lo <= a / n <= hi
    ensures (a / n) * n <= a < (a / n + 1) * n
  {
    var q, r := a / n, a % n;
    assert a == n * q + r && 0 <= r < n;
    if q < lo {
      MulMono(n, q + 1, lo);
      assert false;
    }
    if q > hi {
      MulMono(n, hi + 1, q);
      assert false;
    }
  }

  /** `(sum / len) as u16`: the mean truncated toward zero. It lies between
      the smallest and the largest sample, so the cast loses nothing. */
  function Mean(s: seq<u16>): (m: u16)
    requires |s| > 0
    ensures SeqMin(s) <= m <= SeqMax(s)
    ensures (m as int) * |s| <= Sum(s) < (m as int + 1) * |s|
  {
    SumBounds(s);
    DivBounds(Sum(s), |s|, SeqMin(s) as int, SeqMax(s) as int);
    (Sum(s) / |s|) as u16
  }

  // ---------------------------------------------------------------------
  // voltage_stats

  datatype VoltageStats = VoltageStats(avg: u16, min: u16, max: u16, delta: u16)

  /** What `voltage_stats` promises of a non-empty series. */
  function Stats(s: seq<u16>): (r: VoltageStats)
    requires |s| > 0
    ensures r.min in s && r.max in s
    ensures forall k :: 0 <= k < |s| ==> r.min <= s[k] <= r.max
    ensures r.min <= r.avg <= r.max
    ensures r.delta == r.max - r.min
    ensures (r.avg as int) * |s| <= Sum(s) < (r.avg as int + 1) * |s|
  {
    var lo, hi := SeqMin(s), SeqMax(s);
    VoltageStats(Mean(s), lo, hi, hi - lo)
  }

  /** One step of the `voltage_stats` loop: the running sum, minimum and
      maximum of a prefix extend by the next cell, and the sum of at most
      `MaxCells` cells fits a u32. */
  lemma StatsStep(s: seq<u16>, i: nat)
    requires i < |s| <= MaxCells
    ensures Sum(s[..i + 1]) == Sum(s[..i]) + s[i] as nat
    ensures Sum(s[..i + 1]) < 0x1_0000_0000
    ensures i > 0 ==> SeqMin(s[..i + 1]) == Min(SeqMin(s[..i]), s[i])
    ensures i > 0 ==> SeqMax(s[..i + 1]) == Max(SeqMax(s[..i]), s[i])
    ensures i == 0 ==> SeqMin(s[..i + 1]) == s[i] == SeqMax(s[..i + 1])
  {
    var seen := s[..i + 1];
    assert seen[..i] == s[..i] && seen[i] == s[i];
    SumAtMost(seen);
    MulMono(0xFFFF, i + 1, MaxCells);
  }

  /** `voltage_stats`: one pass tracking min, max, a u32 sum and a u32
      count. An empty series panics in the source (0 - u16::MAX and a
      division by zero), so it is excluded here and handled by the caller. */
  method VoltageStatsOf(s: seq<u16>) returns (r: VoltageStats)
    requires 0 < |s| <= MaxCells
    ensures r == Stats(s)
  {
    var min: u16 := U16Max;
    var max: u16 := 0;
    var sum: u32 := 0;
    var len: u32 := 0;
    var i := 0;
    while i < |s|
      invariant 0 <= i <= |s|
      invariant len as int == i
      invariant sum as int == Sum(s[..i])
      invariant i == 0 ==> min == U16Max && max == 0
      invariant i > 0 ==> min == SeqMin(s[..i]) && max == SeqMax(s[..i])
    {
      var v := s[i];
      StatsStep(s, i);
      if v < min {
        min := v;
      }
      if v > max {
        max := v;
      }
      sum := sum + v as u32;
      len := len + 1;
      i := i + 1;
    }
    assert s[..i] == s;
    var delta := max - min;
    var quotient := (sum as int) / (len as int);
    assert quotient == Mean(s) as int;
    var avg := quotient as u16;
    r := VoltageStats(avg, min, max, delta);
  }

  // ---------------------------------------------------------------------
  // Sanitising

  predicate InRange(v: u16) {
    SafeLow <= v <= SafeHigh
  }

  predicate AllInRange(s: seq<u16>) {
    forall k :: 0 <= k < |s| ==> InRange(s[k])
  }

  /** One step of the pass: `if *v < 3000 || *v > 4200 { *v = avg }`. */
  function Replace(v: u16, avg: u16): (r: u16)
    ensures InRange(v) ==> r == v
    ensures !InRange(v) ==> r == avg
  {
    if v < SafeLow || v > SafeHigh then avg else v
  }

  function Sanitized(s: seq<u16>, avg: u16): (r: seq<u16>)
    ensures |r| == |s|
  {
    if s == [] then [] else [Replace(s[0], avg)] + Sanitized(s[1..], avg)
  }

  /** Exactly the out-of-range readings become `avg`; the others, the order
      and the length are kept. */
  lemma {:induction false} SanitizedAt(s: seq<u16>, avg: u16)
    ensures |Sanitized(s, avg)| == |s|
    ensures forall k :: 0 <= k < |s| ==>
              Sanitized(s, avg)[k] == if InRange(s[k]) then s[k] else avg
  {
    if s != [] {
      SanitizedAt(s[1..], avg);
    }
  }

  /** The pass in place, over the `Vec` as an array. */
  method SanitizeInPlace(a: array<u16>, avg: u16)
    modifies a
    ensures a[..] == Sanitized(old(a[..]), avg)
  {
    for i := 0 to a.Length
      invariant forall k :: 0 <= k < i ==> a[k] == Replace(old(a[k]), avg)
      invariant forall k :: i <= k < a.Length ==> a[k] == old(a[k])
    {
      if a[i] < SafeLow || a[i] > SafeHigh {
        a[i] := avg;
      }
    }
    SanitizedAt(old(a[..]), avg);
  }

  /** An array already in range, or sanitised once, is left unchanged. */
  lemma SanitizeInRangeUnchanged(s: seq<u16>, avg: u16)
    requires AllInRange(s)
    ensures Sanitized(s, avg) == s
  {
    SanitizedAt(s, avg);
  }

  lemma SanitizeIdempotent(s: seq<u16>, avg: u16)
    ensures Sanitized(Sanitized(s, avg), avg) == Sanitized(s, avg)
  {
    SanitizedAt(s, avg);
    SanitizedAt(Sanitized(s, avg), avg);
  }

  /** After the pass every reading is in range or is the replacement value;
      the replacement itself is not checked against the range. */
  lemma SanitizedReadings(s: seq<u16>, avg: u16)
    ensures forall k :: 0 <= k < |Sanitized(s, avg)| ==>
              InRange(Sanitized(s, avg)[k]) || Sanitized(s, avg)[k] == avg
    ensures InRange(avg) ==> AllInRange(Sanitized(s, avg))
  {
    SanitizedAt(s, avg);
  }

  /** With a single outlier, only that reading changes, to the raw mean. */
  lemma SanitizeSingleOutlier(s: seq<u16>, j: nat)
    requires j < |s| && !InRange(s[j])
    requires forall k :: 0 <= k < |s| && k != j ==> InRange(s[k])
    ensures Sanitized(s, Mean(s)) == s[j := Mean(s)]
  {
    SanitizedAt(s, Mean(s));
  }

  /** [3000, 4200, 3700, 5000] has raw mean 3975, which replaces 5000. */
  lemma SanitizeExample()
    ensures Mean([3000, 4200, 3700, 5000]) == 3975
    ensures Sanitized([3000, 4200, 3700, 5000], 3975) == [3000, 4200, 3700, 3975]
  {
    var s1: seq<u16> := [3000];
    var s2: seq<u16> := s1 + [4200];
    var s3: seq<u16> := s2 + [3700];
    var s4: seq<u16> := s3 + [5000];
    assert s1[..0] == [] && s2[..1] == s1 && s3[..2] == s2 && s4[..3] == s3;
    assert Sum(s1) == 3000;
    assert Sum(s2) == 7200;
    assert Sum(s3) == 10900;
    assert Sum(s4) == 15900;
    assert s4 == [3000, 4200, 3700, 5000];
  }

  // ---------------------------------------------------------------------
  // Partition and overall

  /** `overall` from the two partitions and the raw mean. */
  function Combine(avg: u16, right: VoltageStats, left: VoltageStats): (r: VoltageStats)
    requires right.min <= right.max
    ensures r.avg == avg
    ensures r.max == Max(right.max, left.max) && r.min == Min(right.min, left.min)
    ensures r.min <= r.max && r.delta == r.max - r.min
  {
    var max, min := Max(right.max, left.max), Min(right.min, left.min);
    VoltageStats(avg, min, max, max - min)
  }

  lemma {:induction false} SeqMinConcat(a: seq<u16>, b: seq<u16>)
    requires |a| > 0 && |b| > 0
    ensures SeqMin(a + b) == Min(SeqMin(a), SeqMin(b))
    decreases |b|
  {
    var ab := a + b;
    assert ab[|ab| - 1] == b[|b| - 1];
    if |b| == 1 {
      assert ab[..|ab| - 1] == a;
    } else {
      var b' := b[..|b| - 1];
      assert ab[..|ab| - 1] == a + b';
      SeqMinConcat(a, b');
    }
  }

  lemma {:induction false} SeqMaxConcat(a: seq<u16>, b: seq<u16>)
    requires |a| > 0 && |b| > 0
    ensures SeqMax(a + b) == Max(SeqMax(a), SeqMax(b))
    decreases |b|
  {
    var ab := a + b;
    assert ab[|ab| - 1] == b[|b| - 1];
    if |b| == 1 {
      assert ab[..|ab| - 1] == a;
    } else {
      var b' := b[..|b| - 1];
      assert ab[..|ab| - 1] == a + b';
      SeqMaxConcat(a, b');
    }
  }

  /** The partitions cover the array: `overall`'s min, max and delta are
      those of the whole (sanitised) array, whatever the average passed in. */
  lemma CombineCoversAll(avg: u16, s: seq<u16>)
    requires |s| > RightCells
    ensures Combine(avg, Stats(s[..RightCells]), Stats(s[RightCells..])) ==
            VoltageStats(avg, SeqMin(s), SeqMax(s), SeqMax(s) - SeqMin(s))
  {
    assert s == s[..RightCells] + s[RightCells..];
    SeqMinConcat(s[..RightCells], s[RightCells..]);
    SeqMaxConcat(s[..RightCells], s[RightCells..]);
  }
}
