/** The order of names: code points, not UTF-16 units. */
module CodePointOrder {
  import opened Utf16

  type Name = Text

  predicate IsHigh(u: int) { 0xD800 <= u < 0xDC00 }
  predicate IsLow(u: int) { 0xDC00 <= u < 0xE000 }

  /** `Array.from` of a string and `codePointAt`: a surrogate pair is one character, a lone
      surrogate stands for itself. */
  function Points(name: Name): seq<nat> {
    if name == [] then []
    else if |name| > 1 && IsHigh(name[0]) && IsLow(name[1]) then
      [0x10000 + (name[0] - 0xD800) * 0x400 + (name[1] - 0xDC00)] + Points(name[2..])
    else [name[0]] + Points(name[1..])
  }

  /** The units of one code point. */
  function Units(point: nat): Name {
    if point < 0x10000 then [point]
    else if point < 0x110000 then [0xD800 + (point - 0x10000) / 0x400, 0xDC00 + (point - 0x10000) % 0x400]
    else []
  }

  function Spell(points: seq<nat>): Name {
    if points == [] then [] else Units(points[0]) + Spell(points[1..])
  }

  lemma {:induction false} SpellInverts(name: Name)
    ensures Spell(Points(name)) == name
  {
    if name != [] {
      if |name| > 1 && IsHigh(name[0]) && IsLow(name[1]) {
        SpellInverts(name[2..]);
        var p: nat := 0x10000 + (name[0] as int - 0xD800) * 0x400 + (name[1] as int - 0xDC00);
        PairUnits(name[0], name[1]);
        assert Points(name)[0] == p && Points(name)[1..] == Points(name[2..]);
        assert name == [name[0], name[1]] + name[2..];
      } else {
        SpellInverts(name[1..]);
        assert Points(name)[0] == name[0] && Points(name)[1..] == Points(name[1..]);
        assert name == [name[0]] + name[1..];
      }
    }
  }

  lemma {:induction false} PairUnits(high: Unit, low: Unit)
    requires IsHigh(high) && IsLow(low)
    ensures Units(0x10000 + (high - 0xD800) * 0x400 + (low - 0xDC00)) == [high, low]
  {
    var p: int := (high - 0xD800) * 0x400 + (low - 0xDC00);
    assert p / 0x400 == high - 0xD800 && p % 0x400 == low - 0xDC00;
  }

  /** A unit that begins no pair is a point, and stands for itself. */
  lemma {:induction false} OneUnit(name: Name)
    requires name != [] && !(|name| > 1 && 0xD800 <= name[0] <= 0xDBFF && 0xDC00 <= name[1] <= 0xDFFF)
    ensures Points(name) == [name[0]] + Points(name[1..])
  {
  }

  /** A pair is one point, and lies above all single units. */
  lemma {:induction false} OnePair(name: Name)
    requires |name| > 1 && 0xD800 <= name[0] <= 0xDBFF && 0xDC00 <= name[1] <= 0xDFFF
    ensures Points(name) == [65536 + (name[0] as int - 55296) * 1024 + (name[1] as int - 56320)] + Points(name[2..])
    ensures 65535 < Points(name)[0] < 1114112
  {
  }

  /** Points are made in front of a place and behind it separately, unless it cuts a pair. */
  lemma {:induction false} PointsConcat(a: Name, b: Name)
    requires a == [] || b == [] || !(0xD800 <= a[|a| - 1] <= 0xDBFF && 0xDC00 <= b[0] <= 0xDFFF)
    ensures Points(a + b) == Points(a) + Points(b)
  {
    if a == [] {
      assert a + b == b;
    } else if |a| > 1 && IsHigh(a[0]) && IsLow(a[1]) {
      PointsConcat(a[2..], b);
      PairConcat(a, b);
    } else {
      PointsConcat(a[1..], b);
      UnitConcat(a, b);
    }
  }

  lemma {:induction false} DropConcat(a: Name, b: Name, n: nat)
    requires n <= |a|
    ensures (a + b)[n..] == a[n..] + b && forall i :: 0 <= i < |a| ==> (a + b)[i] == a[i]
  {
  }

  lemma {:induction false} FirstConcat(point: nat, p: seq<nat>, q: seq<nat>)
    ensures [point] + (p + q) == [point] + p + q
  {
  }

  lemma {:induction false} PairConcat(a: Name, b: Name)
    requires |a| > 1 && 0xD800 <= a[0] <= 0xDBFF && 0xDC00 <= a[1] <= 0xDFFF && Points(a[2..] + b) == Points(a[2..]) + Points(b)
    ensures Points(a + b) == Points(a) + Points(b)
  {
    DropConcat(a, b, 2);
    OnePair(a);
    OnePair(a + b);
    FirstConcat(65536 + (a[0] as int - 55296) * 1024 + (a[1] as int - 56320), Points(a[2..]), Points(b));
  }

  lemma {:induction false} UnitConcat(a: Name, b: Name)
    requires a != [] && !(|a + b| > 1 && 0xD800 <= (a + b)[0] <= 0xDBFF && 0xDC00 <= (a + b)[1] <= 0xDFFF)
    requires Points(a[1..] + b) == Points(a[1..]) + Points(b)
    ensures Points(a + b) == Points(a) + Points(b)
  {
    DropConcat(a, b, 1);
    OneUnit(a);
    OneUnit(a + b);
    FirstConcat(a[0], Points(a[1..]), Points(b));
  }

  /** Different names have different code points. */
  lemma {:induction false} PointsInjective(a: Name, b: Name)
    requires Points(a) == Points(b)
    ensures a == b
  {
    SpellInverts(a);
    SpellInverts(b);
  }

  /** The sign of the first difference, or else of the difference in length. */
  function Compare(a: seq<nat>, b: seq<nat>): int {
    if a == [] || b == [] then |a| - |b|
    else if a[0] != b[0] then a[0] - b[0]
    else Compare(a[1..], b[1..])
  }

  /** They agree before k; there the first ends and the second goes on, or the point of the first
      is the smaller number. */
  predicate SmallerAt(a: seq<nat>, b: seq<nat>, k: nat) {
    && k <= |a| && k < |b| && (forall i :: 0 <= i < k ==> a[i] == b[i])
    && (k < |a| ==> a[k] < b[k])
  }

  lemma {:induction false} CompareMeans(a: seq<nat>, b: seq<nat>)
    ensures Compare(a, b) < 0 <==> exists k :: SmallerAt(a, b, k)
  {
    if a == [] || b == [] {
      if b != [] {
        assert SmallerAt(a, b, 0);
      }
    } else if a[0] != b[0] {
      if a[0] < b[0] {
        assert SmallerAt(a, b, 0);
      }
    } else {
      CompareMeans(a[1..], b[1..]);
      if k :| SmallerAt(a[1..], b[1..], k) {
        SmallerBehind(a, b, k);
      }
      if k :| SmallerAt(a, b, k) {
        assert k > 0;
        SmallerTail(a, b, k);
      }
    }
  }

  lemma {:induction false} SmallerBehind(a: seq<nat>, b: seq<nat>, k: nat)
    requires a != [] && b != [] && a[0] == b[0] && SmallerAt(a[1..], b[1..], k)
    ensures SmallerAt(a, b, k + 1)
  {
    forall i | 0 <= i < k + 1 ensures a[i] == b[i] {
      if i > 0 {
        assert a[1..][i - 1] == b[1..][i - 1];
      }
    }
  }

  lemma {:induction false} SmallerTail(a: seq<nat>, b: seq<nat>, k: nat)
    requires a != [] && b != [] && k > 0 && SmallerAt(a, b, k)
    ensures SmallerAt(a[1..], b[1..], k - 1)
  {
  }

  /** One name comes before another iff at the first difference of their points it has the smaller
      one, or has ended. */
  lemma {:induction false} LessMeans(a: Name, b: Name)
    ensures Less(a, b) <==> exists k :: SmallerAt(Points(a), Points(b), k)
  {
    CompareMeans(Points(a), Points(b));
    if Less(a, b) {
      assert exists k :: SmallerAt(Points(a), Points(b), k);
    } else {
      assert !exists k :: SmallerAt(Points(a), Points(b), k);
    }
  }

  /** The comparison loop. */
  method CompareCodePoints(left: Name, right: Name) returns (r: int)
    ensures r < 0 <==> exists k :: SmallerAt(Points(left), Points(right), k)
    ensures r > 0 <==> exists k :: SmallerAt(Points(right), Points(left), k)
    ensures r == 0 <==> left == right
    ensures r < 0 <==> Less(left, right)
  {
    var leftPoints, rightPoints := Points(left), Points(right);
    LessMeans(left, right);
    LessMeans(right, left);
    CompareEqual(leftPoints, rightPoints);
    CompareZero(left, right);
    var length := if |leftPoints| < |rightPoints| then |leftPoints| else |rightPoints|;
    var index := 0;
    while index < length
      invariant 0 <= index <= length
      invariant Compare(leftPoints, rightPoints) == Compare(leftPoints[index..], rightPoints[index..])
    {
      var difference := leftPoints[index] as int - rightPoints[index] as int;
      if difference != 0 {
        return difference;
      }
      assert leftPoints[index..][1..] == leftPoints[index + 1..];
      assert rightPoints[index..][1..] == rightPoints[index + 1..];
      index := index + 1;
    }
    r := |leftPoints| - |rightPoints|;
  }

  predicate Less(a: Name, b: Name) {
    Compare(Points(a), Points(b)) < 0
  }

  lemma {:induction false} CompareEqual(a: seq<nat>, b: seq<nat>)
    ensures Compare(a, b) == 0 <==> a == b
    ensures Compare(a, b) == -Compare(b, a)
  {
    if a != [] && b != [] && a[0] == b[0] {
      CompareEqual(a[1..], b[1..]);
      assert a == [a[0]] + a[1..] && b == [b[0]] + b[1..];
    }
  }

  lemma {:induction false} CompareTransitive(a: seq<nat>, b: seq<nat>, c: seq<nat>)
    requires Compare(a, b) < 0 && Compare(b, c) < 0
    ensures Compare(a, c) < 0
  {
    if a != [] && b != [] && c != [] && a[0] == b[0] && b[0] == c[0] {
      CompareTransitive(a[1..], b[1..], c[1..]);
    }
  }

  lemma {:induction false} CompareZero(a: Name, b: Name)
    ensures Compare(Points(a), Points(b)) == 0 <==> a == b
  {
    CompareEqual(Points(a), Points(b));
    if Points(a) == Points(b) { PointsInjective(a, b); }
  }

  /** The order is a strict total order on all names. */
  lemma {:induction false} StrictTotalOrder(a: Name, b: Name, c: Name)
    ensures !Less(a, a)
    ensures Less(a, b) ==> !Less(b, a)
    ensures a == b || Less(a, b) || Less(b, a)
    ensures Less(a, b) && Less(b, c) ==> Less(a, c)
  {
    CompareEqual(Points(a), Points(a));
    CompareEqual(Points(a), Points(b));
    CompareZero(a, b);
    if Less(a, b) && Less(b, c) { CompareTransitive(Points(a), Points(b), Points(c)); }
  }
}

/** Sorting named things by the order of their names. */
module NameOrder {
  import opened CodePointOrder

  datatype Named<T> = Named(name: Name, item: T)

  ghost predicate DistinctNames<T>(s: seq<Named<T>>) {
    forall i, j :: 0 <= i < j < |s| ==> s[i].name != s[j].name
  }

  ghost predicate Increasing<T>(s: seq<Named<T>>) {
    forall i, j :: 0 <= i < j < |s| ==> Less(s[i].name, s[j].name)
  }

  function Insert<T>(e: Named<T>, sorted: seq<Named<T>>): seq<Named<T>> {
    if sorted == [] || Less(sorted[|sorted| - 1].name, e.name) then sorted + [e]
    else Insert(e, sorted[..|sorted| - 1]) + [sorted[|sorted| - 1]]
  }

  /** `sort` with compareCodePoints on the names. */
  function Sort<T>(s: seq<Named<T>>): seq<Named<T>> {
    if s == [] then [] else Insert(s[|s| - 1], Sort(s[..|s| - 1]))
  }

  lemma {:induction false} InsertMember<T>(e: Named<T>, sorted: seq<Named<T>>, x: Named<T>)
    ensures x in Insert(e, sorted) <==> x in sorted || x == e
  {
    if sorted != [] {
      assert sorted == sorted[..|sorted| - 1] + [sorted[|sorted| - 1]];
      if !Less(sorted[|sorted| - 1].name, e.name) { InsertMember(e, sorted[..|sorted| - 1], x); }
    }
  }

  lemma {:induction false} InsertIncreases<T>(e: Named<T>, sorted: seq<Named<T>>)
    requires Increasing(sorted) && forall i :: 0 <= i < |sorted| ==> sorted[i].name != e.name
    ensures Increasing(Insert(e, sorted)) && |Insert(e, sorted)| == |sorted| + 1
  {
    if sorted != [] {
      var init, last := sorted[..|sorted| - 1], sorted[|sorted| - 1];
      StrictTotalOrder(last.name, e.name, e.name);
      if Less(last.name, e.name) {
        forall i | 0 <= i < |init| ensures Less(sorted[i].name, e.name) {
          StrictTotalOrder(sorted[i].name, last.name, e.name);
        }
      } else {
        InsertIncreases(e, init);
        var r := Insert(e, init);
        forall i | 0 <= i < |r| ensures Less(r[i].name, last.name) {
          InsertMember(e, init, r[i]);
          if r[i] != e {
            var k :| 0 <= k < |init| && init[k] == r[i];
            assert sorted[k] == r[i];
          }
        }
      }
    }
  }

  /** Sorting keeps exactly the same things. */
  lemma {:induction false} SortMember<T>(s: seq<Named<T>>, x: Named<T>)
    ensures x in Sort(s) <==> x in s
  {
    if s != [] {
      assert s == s[..|s| - 1] + [s[|s| - 1]];
      SortMember(s[..|s| - 1], x);
      InsertMember(s[|s| - 1], Sort(s[..|s| - 1]), x);
    }
  }

  /** Sorting distinct names puts them in strictly increasing order. */
  lemma {:induction false} SortIncreases<T>(s: seq<Named<T>>)
    requires DistinctNames(s)
    ensures Increasing(Sort(s)) && |Sort(s)| == |s|
  {
    if s != [] {
      var init, last := s[..|s| - 1], s[|s| - 1];
      SortIncreases(init);
      var r := Sort(init);
      forall i | 0 <= i < |r| ensures r[i].name != last.name {
        SortMember(init, r[i]);
        var k :| 0 <= k < |init| && init[k] == r[i];
        assert s[k] == r[i];
      }
      InsertIncreases(last, r);
    }
  }
}
