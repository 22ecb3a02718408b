/**
 * The halving search of geoip.c: it jumps by ever halved steps and, when those have shrunk to zero,
 * walks by one. It stays inside the table, finds the range, and never needs its cut-off.
 */
module Geoip {
  import opened Bytes

  const GEOIP_FILE_LINES := 2912124
  const GEOIP_NOT_LOADING := 1000.0
  const GEOIP_MAX_ITERATION := 50

  datatype Range = Range(startIp: u32, endIp: u32, lat: real, lon: real)

  predicate Contains(r: Range, ip: u32) {
    r.startIp <= ip <= r.endIp
  }

  ghost predicate Adjacent(t: seq<Range>, i: nat)
    requires i < |t| - 1
  {
    t[i + 1].startIp == t[i].endIp + 1
  }

  /** A loaded table: sorted, without gaps, covering every address. */
  ghost predicate Covering(t: seq<Range>) {
    && |t| == GEOIP_FILE_LINES
    && t[0].startIp == 0 && t[|t| - 1].endIp == WORD - 1
    && (forall i :: 0 <= i < |t| ==> t[i].startIp <= t[i].endIp)
    && (forall i :: 0 <= i < |t| - 1 ==> Adjacent(t, i))
  }

  // ---------------------------------------------------------------- sums of halvings

  /** The number of ones in the binary notation of `n`. */
  function Popcount(n: nat): nat {
    if n == 0 then 0 else Popcount(n / 2) + n % 2
  }

  /** The number of binary digits of `n`. */
  function BitLength(n: nat): nat {
    if n == 0 then 0 else BitLength(n / 2) + 1
  }

  /** n/2 + n/4 + n/8 + ..., every quotient rounded down. */
  function SumOfHalves(n: nat): nat {
    if n == 0 then 0 else n / 2 + SumOfHalves(n / 2)
  }

  /** Legendre's formula for the prime 2. */
  lemma {:induction false} Legendre(n: nat)
    ensures SumOfHalves(n) == n - Popcount(n)
  {
    if n > 0 {
      Legendre(n / 2);
    }
  }

  lemma {:induction false} PopcountAtMost(n: nat)
    ensures Popcount(n) <= n && (n > 0 ==> Popcount(n) > 0)
  {
    if n > 0 {
      PopcountAtMost(n / 2);
    }
  }

  /** How far the search can still be from its target when its last step was `h`. */
  function Reach(n: nat, h: nat): int {
    h + Popcount(n / 2) - Popcount(h)
  }

  /** The number of iterations that suffice for a table of `n` entries. */
  function WorstCase(n: nat): int {
    BitLength(n / 2) - 1 + Popcount(n / 2)
  }

  /** The step the search takes for a delimiter. */
  function Quotient(n: nat, delimiter: nat): nat
    requires delimiter > 0
  {
    n / delimiter
  }

  lemma {:induction false} QuotientUnfold(n: nat, delimiter: nat)
    requires delimiter > 0
    ensures Quotient(n, delimiter) == n / delimiter
  {
  }

  /** Halving the delimiter's quotient is dividing by the doubled delimiter. */
  lemma {:induction false} HalfQuotient(n: nat, d: nat)
    requires d > 0
    ensures Quotient(n, d * 2) == Quotient(n, d) / 2
  {
    var q, r := n / d, n % d;
    var p, b := q / 2, q % 2;
    assert n == q * d + r;
    assert q * d == (2 * p + b) * d == p * (2 * d) + b * d;
    assert 0 <= b * d + r < 2 * d by {
      assert b == 0 || b == 1;
    }
    QuotientIs(n, 2 * d, p, b * d + r);
  }

  lemma {:induction false} QuotientIs(n: int, d: int, p: int, r: int)
    requires d > 0 && n == p * d + r && 0 <= r < d
    ensures n / d == p
  {
    var q, s := n / d, n % d;
    assert n == q * d + s;
    assert (p - q) * d == s - r;
    if p > q {
      AtLeastOnce(p - q, d);
    } else if p < q {
      assert (q - p) * d == r - s;
      AtLeastOnce(q - p, d);
    }
  }

  lemma {:induction false} AtLeastOnce(k: int, d: int)
    requires k >= 1 && d > 0
    ensures k * d >= d
  {
  }

  // ---------------------------------------------------------------- the table

  lemma {:induction false} EarlierRangesEndBefore(t: seq<Range>, i: nat, j: nat)
    requires Covering(t) && i < j < |t|
    ensures t[i].endIp < t[j].startIp
    decreases j
  {
    assert t[j - 1].startIp <= t[j - 1].endIp && Adjacent(t, j - 1);
    if i < j - 1 {
      EarlierRangesEndBefore(t, i, j - 1);
    }
  }

  /** Every address has its range. */
  lemma {:induction false} RangeOf(t: seq<Range>, ip: u32) returns (target: nat)
    requires Covering(t)
    ensures target < |t| && Contains(t[target], ip)
  {
    target := 0;
    while t[target].endIp < ip
      invariant target < |t| && t[target].startIp <= ip
    {
      assert target < |t| - 1;
      assert Adjacent(t, target);
      target := target + 1;
    }
  }

  lemma {:induction false} OnlyRange(t: seq<Range>, ip: u32, target: nat, i: nat)
    requires Covering(t) && target < |t| && i < |t| && Contains(t[target], ip)
    ensures Sees(t, ip, target, i)
  {
    if i < target {
      EarlierRangesEndBefore(t, i, target);
    } else if i > target {
      EarlierRangesEndBefore(t, target, i);
    }
  }

  // ---------------------------------------------------------------- the search

  /** What holds of a search for `target` whose last halved step was `h`. */
  ghost predicate Searching(n: nat, h: nat, index: int, target: int, iterations: int) {
    && 0 <= index < n
    && if h > 0 then
         && iterations == BitLength(n / 2) - BitLength(h)
         && Reach(n, h) <= index <= SumOfHalves(n) - SumOfHalves(h)
         && index - Reach(n, h) <= target <= index + Reach(n, h)
         && Popcount(h) <= Popcount(n / 2)
         && (target == 0 ==> index == Reach(n, h))
       else
         && iterations >= BitLength(n / 2)
         && target - (WorstCase(n) - iterations) <= index <= target + (WorstCase(n) - iterations)
         && (target == 0 ==> index == WorstCase(n) - iterations)
  }

  lemma {:induction false} SearchBegins(n: nat, target: nat)
    requires n >= 2 && target < n
    ensures Searching(n, n / 2, n / 2, target, 0)
  {
  }

  /** Where one iteration goes. */
  function NextIndex(h: nat, index: int, left: bool): int {
    var step := if h / 2 > 0 then h / 2 else 1;
    if left then index - step else index + step
  }

  /** One iteration keeps the search on its way. */
  lemma {:induction false} SearchStep(n: nat, h: nat, index: int, target: nat, iterations: int)
    requires n >= 2 && target < n && index != target && Searching(n, h, index, target, iterations)
    ensures Searching(n, h / 2, NextIndex(h, index, target < index), target, iterations + 1)
    ensures iterations + 1 <= WorstCase(n)
  {
    PopcountAtMost(n);
    PopcountAtMost(n / 2);
    PopcountAtMost(h);
    PopcountAtMost(h / 2);
    Legendre(n);
    Legendre(h);
    Legendre(h / 2);
    if h == 1 {
      assert BitLength(h) == 1 && Popcount(h) == 1;
    } else if h > 1 {
      assert BitLength(h) == BitLength(h / 2) + 1;
    }
  }

  /** A search for entry 0 that has arrived took as long as any search can. */
  lemma {:induction false} SearchEnds(n: nat, h: nat, iterations: int)
    requires n >= 2 && Searching(n, h, 0, 0, iterations)
    ensures iterations == WorstCase(n)
  {
  }

  lemma {:induction false} WorstCaseOfTable()
    ensures WorstCase(2912124) == 34
  {
    assert GEOIP_FILE_LINES / 2 == 1456062;
    assert Popcount(1) == 1 && BitLength(1) == 1;
    assert Popcount(2) == 1 && BitLength(2) == 2;
    assert Popcount(5) == 2 && BitLength(5) == 3;
    assert Popcount(11) == 3 && BitLength(11) == 4;
    assert Popcount(22) == 3 && BitLength(22) == 5;
    assert Popcount(44) == 3 && BitLength(44) == 6;
    assert Popcount(88) == 3 && BitLength(88) == 7;
    assert Popcount(177) == 4 && BitLength(177) == 8;
    assert Popcount(355) == 5 && BitLength(355) == 9;
    assert Popcount(710) == 5 && BitLength(710) == 10;
    assert Popcount(1421) == 6 && BitLength(1421) == 11;
    assert Popcount(2843) == 7 && BitLength(2843) == 12;
    assert Popcount(5687) == 8 && BitLength(5687) == 13;
    assert Popcount(11375) == 9 && BitLength(11375) == 14;
    assert Popcount(22750) == 9 && BitLength(22750) == 15;
    assert Popcount(45501) == 10 && BitLength(45501) == 16;
    assert Popcount(91003) == 11 && BitLength(91003) == 17;
    assert Popcount(182007) == 12 && BitLength(182007) == 18;
    assert Popcount(364015) == 13 && BitLength(364015) == 19;
    assert Popcount(728031) == 14 && BitLength(728031) == 20;
    assert Popcount(1456062) == 14 && BitLength(1456062) == 21;
  }

  /** The two branches of the loop body: a step of the quotient or, when that is 0, of one entry. */
  method Jump(index: int, delimiter: nat, back: bool) returns (next: int)
    requires delimiter > 0
    ensures var step := if Quotient(GEOIP_FILE_LINES, delimiter) > 0 then Quotient(GEOIP_FILE_LINES, delimiter) else 1;
            next == if back then index - step else index + step
  {
    next := index;
    if back {
      next := next - GEOIP_FILE_LINES / delimiter;
      if index == next {
        next := next - 1;
      }
    } else {
      next := next + GEOIP_FILE_LINES / delimiter;
      if index == next {
        next := next + 1;
      }
    }
  }

  /** The position of `i` relative to the entry that contains the address. */
  ghost predicate Sees(t: seq<Range>, ip: u32, target: nat, i: int)
    requires 0 <= i < |t|
  {
    (i < target <==> t[i].endIp < ip) && (i > target <==> t[i].startIp > ip)
  }

  /** The part of `findGeoip` behind its two guards. */
  method Search(geoip: seq<Range>, ip: u32) returns (index: nat, iterations: nat)
    requires Covering(geoip)
    ensures index < |geoip| && iterations <= 34 && Contains(geoip[index], ip)
    ensures Contains(geoip[0], ip) ==> iterations == 34
  {
    hide Quotient, Popcount, BitLength, SumOfHalves, Reach, WorstCase, Searching;
    ghost var n := GEOIP_FILE_LINES;
    ghost var target := RangeOf(geoip, ip);
    QuotientUnfold(n, 2);
    WorstCaseOfTable();
    SearchBegins(n, target);
    OnlyRange(geoip, ip, target, 0);
    var delimiter := 2;
    index, iterations := GEOIP_FILE_LINES / delimiter, 0;
    OnlyRange(geoip, ip, target, index);
    while geoip[index].startIp > ip || geoip[index].endIp < ip
      invariant delimiter > 0 && index < |geoip| && Sees(geoip, ip, target, index)
      invariant Searching(n, Quotient(n, delimiter), index, target, iterations) && iterations <= 34
      decreases 34 - iterations
    {
      SearchStep(n, Quotient(n, delimiter), index, target, iterations);
      HalfQuotient(n, delimiter);
      delimiter := delimiter * 2;
      var next := Jump(index, delimiter, geoip[index].startIp > ip);
      SearchInTable(n, Quotient(n, delimiter), next, target, iterations + 1);
      index, iterations := next, iterations + 1;
      OnlyRange(geoip, ip, target, index);
      if iterations > GEOIP_MAX_ITERATION {
        break;
      }
    }
    if target == 0 {
      SearchEnds(n, Quotient(n, delimiter), iterations);
    }
  }

  lemma {:induction false} SearchInTable(n: nat, h: nat, index: int, target: nat, iterations: int)
    requires Searching(n, h, index, target, iterations)
    ensures 0 <= index < n
  {
  }

  /**
   * `findGeoip`, as the index of the entry it returns and the iterations it took. A table is searched
   * only if its first entry has a non-zero end and its last entry has been loaded.
   */
  method FindGeoip(geoip: seq<Range>, ip: u32) returns (index: nat, iterations: nat)
    requires |geoip| > 0 && (geoip[0].endIp != 0 ==> |geoip| == 2912124)
    requires geoip[0].endIp != 0 && geoip[GEOIP_FILE_LINES - 1].lat != GEOIP_NOT_LOADING ==> Covering(geoip)
    ensures index < |geoip| && iterations <= 34 < GEOIP_MAX_ITERATION == 50
    ensures Searched(geoip) ==> Contains(geoip[index], ip)
    ensures Covering(geoip) ==> (Contains(geoip[index], ip) <==> Searched(geoip) || Contains(geoip[0], ip))
    ensures Searched(geoip) && Contains(geoip[0], ip) ==> iterations == 34
    ensures !Searched(geoip) ==> index == 0 && iterations == 0
  {
    if geoip[0].endIp == 0 {
      return 0, 0;
    }
    if geoip[GEOIP_FILE_LINES - 1].lat == GEOIP_NOT_LOADING {
      return 0, 0;
    }
    assert Quotient(GEOIP_FILE_LINES, 2) == GEOIP_FILE_LINES / 2;
    hide Quotient, Covering, Popcount, BitLength, SumOfHalves, Reach, WorstCase;
    index, iterations := Search(geoip, ip);
  }

  /** The two guards of `findGeoip`. */
  predicate Searched(geoip: seq<Range>)
    requires |geoip| > 0 && (geoip[0].endIp != 0 ==> |geoip| == GEOIP_FILE_LINES)
  {
    geoip[0].endIp != 0 && geoip[GEOIP_FILE_LINES - 1].lat != GEOIP_NOT_LOADING
  }
}
