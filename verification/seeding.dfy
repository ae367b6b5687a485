/** The two seed-order generators of the pairing engine: the elimination seed
    placement (`bracket`, lib/Algorithms.js:17-23) and the rotating order in
    which a winner's-bracket round is dropped into the loser's bracket
    (`loserFill`, lib/Algorithms.js:30-45). */
module Seeding {
  import opened Base

  // ---------------------------------------------------------------------------
  // bracket(power)

  /** The seed order for four players, the loop's starting value. */
  const Base4: seq<int> := [1, 4, 2, 3]

  /** One pass of the inner loop of `bracket`: starting at index j and moving
      two places at a time, insert the complement m + 1 - a[j] right after
      a[j]. The freshly inserted element is skipped over by the step of 2. */
  function Splice(a: seq<int>, j: nat, m: int): seq<int>
    decreases |a| - j
  {
    if j >= |a| then a
    else Splice(a[..j + 1] + [m + 1 - a[j]] + a[j + 1..], j + 2, m)
  }

  /** Outer loop of `bracket`: one splice pass for each power i = from..power. */
  function BracketFrom(a: seq<int>, from: nat, power: nat): seq<int>
    decreases power + 1 - from
  {
    if from > power then a
    else BracketFrom(Splice(a, 0, Pow2(from)), from + 1, power)
  }

  /** `bracket(power)`: the elimination seed order for 2^power players. For
      power < 3 the loop does not run and the four-seed order comes back. */
  function Bracket(power: nat): seq<int>
  {
    BracketFrom(Base4, 3, power)
  }

  /** The closed form of a splice pass: every element followed by its
      complement. */
  function Interleave(a: seq<int>, m: int): (r: seq<int>)
    ensures |r| == 2 * |a|
  {
    if a == [] then [] else [a[0], m + 1 - a[0]] + Interleave(a[1..], m)
  }

  /** Position 2i of the interleaving holds a[i]; position 2i+1 its complement. */
  lemma {:induction false} InterleaveAt(a: seq<int>, m: int)
    ensures forall i :: 0 <= i < |a| ==>
              Interleave(a, m)[2 * i] == a[i] && Interleave(a, m)[2 * i + 1] == m + 1 - a[i]
  {
    if a != [] {
      InterleaveAt(a[1..], m);
      var r := Interleave(a, m);
      forall i | 1 <= i < |a|
        ensures r[2 * i] == a[i] && r[2 * i + 1] == m + 1 - a[i]
      {
        assert r[2 * i] == Interleave(a[1..], m)[2 * (i - 1)];
        assert r[2 * i + 1] == Interleave(a[1..], m)[2 * (i - 1) + 1];
      }
    }
  }

  lemma {:induction false} InterleaveSnoc(s: seq<int>, x: int, m: int)
    ensures Interleave(s + [x], m) == Interleave(s, m) + [x, m + 1 - x]
  {
    if s == [] {
      assert s + [x] == [x];
    } else {
      assert (s + [x])[1..] == s[1..] + [x];
      InterleaveSnoc(s[1..], x, m);
    }
  }

  /** A splice pass that has handled the first t elements of `orig` has turned
      them into pairs and left the rest untouched; finishing it yields the
      interleaving of the whole sequence. */
  lemma {:induction false} SpliceInterleaves(orig: seq<int>, t: nat, m: int)
    requires t <= |orig|
    ensures Splice(Interleave(orig[..t], m) + orig[t..], 2 * t, m) == Interleave(orig, m)
    decreases |orig| - t
  {
    var done := Interleave(orig[..t], m);
    var a := done + orig[t..];
    if t == |orig| {
      assert orig[..t] == orig;
      assert a == Interleave(orig, m);
    } else {
      var c := m + 1 - orig[t];
      assert a[2 * t] == orig[t];
      assert a[..2 * t + 1] == done + [orig[t]];
      assert a[2 * t + 1..] == orig[t + 1..];
      var a' := a[..2 * t + 1] + [c] + a[2 * t + 1..];
      InterleaveSnoc(orig[..t], orig[t], m);
      assert orig[..t + 1] == orig[..t] + [orig[t]];
      assert a' == Interleave(orig[..t + 1], m) + orig[t + 1..];
      SpliceInterleaves(orig, t + 1, m);
    }
  }

  /** A whole splice pass interleaves each seed with its complement. */
  lemma SplicePass(a: seq<int>, m: int)
    ensures Splice(a, 0, m) == Interleave(a, m)
  {
    assert Interleave(a[..0], m) + a[0..] == a;
    SpliceInterleaves(a, 0, m);
  }

  lemma {:induction false} BracketFromStep(a: seq<int>, from: nat, power: nat)
    requires from <= power + 1
    ensures BracketFrom(a, from, power + 1) == Splice(BracketFrom(a, from, power), 0, Pow2(power + 1))
    decreases power + 1 - from
  {
    if from <= power {
      BracketFromStep(Splice(a, 0, Pow2(from)), from + 1, power);
    }
  }

  /** Going from 2^k to 2^(k+1) players interleaves every seed s with its
      complement 2^(k+1) + 1 - s. */
  lemma BracketSucc(k: nat)
    requires k >= 2
    ensures Bracket(k + 1) == Interleave(Bracket(k), Pow2(k + 1))
  {
    BracketFromStep(Base4, 3, k);
    SplicePass(Bracket(k), Pow2(k + 1));
  }

  /** Pairs (2i, 2i+1) of a seed order of size 2h sum to 2h + 1, the smaller
      seed first. */
  ghost predicate PairedSeeds(s: seq<int>, h: nat)
  {
    && |s| == 2 * h
    && forall i :: 0 <= i < h ==> s[2 * i] + s[2 * i + 1] == 2 * h + 1 && 1 <= s[2 * i] < s[2 * i + 1]
  }

  /** Interleaving a paired order of size 2h with complements for size 4h
      yields a paired order again. */
  lemma InterleavePaired(prev: seq<int>, h: nat)
    requires PairedSeeds(prev, h)
    ensures PairedSeeds(Interleave(prev, 4 * h), 2 * h)
  {
    var b := Interleave(prev, 4 * h);
    InterleaveAt(prev, 4 * h);
    forall i | 0 <= i < 2 * h
      ensures b[2 * i] + b[2 * i + 1] == 4 * h + 1 && 1 <= b[2 * i] < b[2 * i + 1]
    {
      var p := i / 2;
      assert prev[2 * p] + prev[2 * p + 1] == 2 * h + 1 && 1 <= prev[2 * p] < prev[2 * p + 1];
      assert i == 2 * p || i == 2 * p + 1;
      assert 1 <= prev[i] <= 2 * h;
    }
  }

  lemma InterleaveRange(prev: seq<int>, h: nat)
    requires IsPermutation(prev, h)
    ensures forall i :: 0 <= i < 2 * h ==>
              1 <= Interleave(prev, 2 * h)[i] <= 2 * h
              && (i % 2 == 0 <==> Interleave(prev, 2 * h)[i] <= h)
  {
    InterleaveAt(prev, 2 * h);
    forall i | 0 <= i < 2 * h
      ensures 1 <= Interleave(prev, 2 * h)[i] <= 2 * h
      ensures i % 2 == 0 <==> Interleave(prev, 2 * h)[i] <= h
    {
      var t := i / 2;
      assert 1 <= prev[t] <= h;
      if i % 2 == 0 {
        assert i == 2 * t;
        assert Interleave(prev, 2 * h)[2 * t] == prev[t];
      } else {
        assert i == 2 * t + 1;
        assert Interleave(prev, 2 * h)[2 * t + 1] == 2 * h + 1 - prev[t];
      }
    }
  }

  lemma InterleaveDistinct(prev: seq<int>, h: nat)
    requires IsPermutation(prev, h)
    ensures Distinct(Interleave(prev, 2 * h))
  {
    var b := Interleave(prev, 2 * h);
    InterleaveAt(prev, 2 * h);
    InterleaveRange(prev, h);
    forall i, j | 0 <= i < j < |b|
      ensures b[i] != b[j]
    {
      if i % 2 == j % 2 {
        assert i == 2 * (i / 2) + i % 2;
        assert j == 2 * (j / 2) + j % 2;
        assert prev[i / 2] != prev[j / 2];
      }
    }
  }

  lemma InterleaveCovers(prev: seq<int>, h: nat)
    requires IsPermutation(prev, h)
    ensures forall v :: 1 <= v <= 2 * h ==> v in Interleave(prev, 2 * h)
  {
    var b := Interleave(prev, 2 * h);
    InterleaveAt(prev, 2 * h);
    forall v | 1 <= v <= 2 * h
      ensures v in b
    {
      if v <= h {
        assert v in prev;
        var t :| 0 <= t < |prev| && prev[t] == v;
        assert b[2 * t] == v;
      } else {
        assert 2 * h + 1 - v in prev;
        var t :| 0 <= t < |prev| && prev[t] == 2 * h + 1 - v;
        assert b[2 * t + 1] == v;
      }
    }
  }

  /** Interleaving a permutation of 1..h with complements for size 2h yields a
      permutation of 1..2h: the even positions keep 1..h, the odd ones take
      h+1..2h. */
  lemma InterleavePermutation(prev: seq<int>, h: nat)
    requires IsPermutation(prev, h)
    ensures IsPermutation(Interleave(prev, 2 * h), 2 * h)
  {
    InterleaveRange(prev, h);
    InterleaveDistinct(prev, h);
    InterleaveCovers(prev, h);
  }

  /** For power >= 2: 2^power seeds, and each match slot pair (2i, 2i+1)
      holds a seed and its complement 2^power + 1 - seed, the better seed
      first. */
  lemma {:induction false} BracketShape(k: nat)
    requires k >= 2
    ensures |Bracket(k)| == Pow2(k)
    ensures PairedSeeds(Bracket(k), Pow2(k - 1))
  {
    if k == 2 {
      assert Bracket(2) == Base4;
    } else {
      BracketShape(k - 1);
      BracketSucc(k - 1);
      assert Pow2(k) == 4 * Pow2(k - 2);
      InterleavePaired(Bracket(k - 1), Pow2(k - 2));
    }
  }

  /** The even positions of the next bracket are exactly this bracket, in
      order, and the odd positions their complements: adding a power of two
      only inserts complements. */
  lemma BracketEvenPositions(k: nat)
    requires k >= 2
    ensures |Bracket(k + 1)| == 2 * |Bracket(k)|
    ensures forall i :: 0 <= i < |Bracket(k)| ==>
              Bracket(k + 1)[2 * i] == Bracket(k)[i]
              && Bracket(k + 1)[2 * i + 1] == Pow2(k + 1) + 1 - Bracket(k)[i]
  {
    BracketSucc(k);
    InterleaveAt(Bracket(k), Pow2(k + 1));
  }

  /** For power >= 2 the seed order is a permutation of 1..2^power. */
  lemma {:induction false} BracketIsPermutation(k: nat)
    requires k >= 2
    ensures IsPermutation(Bracket(k), Pow2(k))
  {
    if k == 2 {
      assert Bracket(2) == Base4;
      assert Base4[0] == 1 && Base4[2] == 2 && Base4[3] == 3 && Base4[1] == 4;
    } else {
      BracketIsPermutation(k - 1);
      BracketSucc(k - 1);
      InterleavePermutation(Bracket(k - 1), Pow2(k - 1));
    }
  }

  /** Seed 1 opens the order and seed 2 opens its second half, so the two best
      seeds sit in opposite halves and can only meet in the final. */
  lemma {:induction false} TopSeedsApart(k: nat)
    requires k >= 2
    ensures |Bracket(k)| == Pow2(k)
    ensures Bracket(k)[0] == 1
    ensures Bracket(k)[Pow2(k - 1)] == 2
  {
    BracketShape(k);
    if k == 2 {
      assert Bracket(2) == Base4;
    } else {
      TopSeedsApart(k - 1);
      BracketEvenPositions(k - 1);
      assert Bracket(k)[2 * 0] == Bracket(k - 1)[0];
      assert Pow2(k - 1) == 2 * Pow2(k - 2);
      assert Bracket(k)[2 * Pow2(k - 2)] == Bracket(k - 1)[Pow2(k - 2)];
    }
  }

  lemma BracketFour()
    ensures Bracket(2) == [1, 4, 2, 3]
    ensures Bracket(3) == [1, 8, 4, 5, 2, 7, 3, 6]
  {
    BracketSucc(2);
    assert Bracket(3) == Interleave([1, 4, 2, 3], 8);
  }

  // ---------------------------------------------------------------------------
  // loserFill(num, count)

  /** [1, 2, ..., num] */
  function Iota(num: nat): (r: seq<int>)
    ensures |r| == num
    ensures forall i :: 0 <= i < num ==> r[i] == i + 1
  {
    seq(num, i => i + 1)
  }

  function Reverse(s: seq<int>): (r: seq<int>)
    ensures |r| == |s|
    ensures forall i :: 0 <= i < |s| ==> r[i] == s[|s| - 1 - i]
  {
    seq(|s|, i requires 0 <= i < |s| => s[|s| - 1 - i])
  }

  /** The four fill patterns, selected by m = count % 4. The first half has
      floor(num/2) elements, as JavaScript's `slice` truncates num/2. */
  function FillPattern(num: nat, m: nat): (r: seq<int>)
    requires m < 4
    ensures IsPermutation(r, num)
    ensures m == 0 ==> forall i :: 0 <= i < num ==> r[i] == i + 1
    ensures m == 1 ==> forall i :: 0 <= i < num ==> r[i] == num - i
    ensures m == 2 ==> forall i :: 0 <= i < num ==>
              r[i] == (if i < num / 2 then num / 2 - i else num + num / 2 - i)
    ensures m == 3 ==> forall i :: 0 <= i < num ==>
              r[i] == (if i < num - num / 2 then num / 2 + 1 + i else i + 1 - (num - num / 2))
  {
    var a := Iota(num);
    var h := num / 2;
    var x := a[..h];
    var y := a[h..];
    var r := match m
      case 0 => a
      case 1 => Reverse(a)
      case 2 => Reverse(x) + Reverse(y)
      case _ => y + x;
    LoserFillPermutation(r, num, m);
    r
  }

  /** `loserFill(num, count)`: the order in which the matches 1..num of a
      winner's-bracket round drop into the loser's bracket; a permutation of
      1..num that depends on count only through count % 4. */
  function LoserFill(num: nat, count: nat): (r: seq<int>)
    ensures IsPermutation(r, num)
  {
    var r := seq(num, i requires 0 <= i < num => FillAt(num, count % 4, i));
    LoserFillPermutation(r, num, count % 4);
    r
  }

  /** Element i of fill order m. */
  function FillAt(num: nat, m: nat, i: nat): int
  {
    if m == 0 then i + 1
    else if m == 1 then num - i
    else if m == 2 then (if i < num / 2 then num / 2 - i else num + num / 2 - i)
    else (if i < num - num / 2 then num / 2 + 1 + i else i + 1 - (num - num / 2))
  }

  /** Each of the four fill orders, given element-wise, visits 1..num once. */
  lemma LoserFillPermutation(r: seq<int>, num: nat, m: nat)
    requires m < 4
    requires |r| == num
    requires m == 0 ==> forall i :: 0 <= i < num ==> r[i] == i + 1
    requires m == 1 ==> forall i :: 0 <= i < num ==> r[i] == num - i
    requires m == 2 ==> forall i :: 0 <= i < num ==>
               r[i] == (if i < num / 2 then num / 2 - i else num + num / 2 - i)
    requires m == 3 ==> forall i :: 0 <= i < num ==>
               r[i] == (if i < num - num / 2 then num / 2 + 1 + i else i + 1 - (num - num / 2))
    ensures IsPermutation(r, num)
  {
    var h := num / 2;
    forall v | 1 <= v <= num
      ensures v in r
    {
      var i := if m == 0 then v - 1
        else if m == 1 then num - v
        else if m == 2 then (if v <= h then h - v else num + h - v)
        else (if v > h then v - h - 1 else v - 1 + num - h);
      assert r[i] == v;
    }
  }

  /** The element-wise order is the slice-and-reverse construction of the
      `switch`, applied to count % 4. */
  lemma LoserFillSlices(num: nat, count: nat)
    ensures LoserFill(num, count) == FillPattern(num, count % 4)
  {
    var m := count % 4;
    var r, p := LoserFill(num, count), FillPattern(num, m);
    forall i | 0 <= i < num
      ensures r[i] == p[i]
    {
      assert r[i] == FillAt(num, m, i);
    }
    assert r == p;
  }

  /** Only count modulo 4 matters: the fill order cycles with period four. */
  lemma LoserFillPeriodic(num: nat, count: nat)
    ensures LoserFill(num, count + 4) == LoserFill(num, count)
    ensures LoserFill(num, count) == LoserFill(num, count % 4)
  {
  }

  lemma LoserFillFour()
    ensures LoserFill(4, 0) == [1, 2, 3, 4]
    ensures LoserFill(4, 1) == [4, 3, 2, 1]
    ensures LoserFill(4, 2) == [2, 1, 4, 3]
    ensures LoserFill(4, 3) == [3, 4, 1, 2]
  {
  }
}
