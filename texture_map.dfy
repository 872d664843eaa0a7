/**
 * TextureMap: the generated table from image names to texture indexes.
 * getIndex looks a name up with Arrays.binarySearch over `names` (ordered
 * by String.compareTo) and answers the paired entry of `indexes`; a name
 * that is not in the table is an IllegalArgumentException.
 */
module TextureMap {

  datatype Result<T> = Ok(value: T) | Err(message: string)

  /** The `names` table, in String.compareTo order. */
  const Names: seq<string> := [
    "font.0",
    "font.1",
    "font_grid.0",
    "joinphase.0",
    "lagerhaus.0",
    "ready.0",
    "ready.1",
    "slider.0",
    "startscreen.0"
  ]

  /** The `indexes` table: `Indexes[i]` is the texture index of `Names[i]`. */
  const Indexes: seq<int> := [0, 1, 6, 8, 5, 3, 4, 2, 7]

  // ---------------------------------------------------------------------------
  // String.compareTo

  /**
   * String.compareTo: the difference of the first pair of differing
   * characters, or the difference of the lengths when one string is a
   * prefix of the other. Dafny characters are Unicode scalar values, whereas
   * Java compares UTF-16 code units; the two orders agree on strings without
   * supplementary characters, which includes the all-ASCII `names` table.
   */
  function JavaCompare(a: string, b: string): int
  {
    if |a| == 0 || |b| == 0 then |a| - |b|
    else if a[0] != b[0] then a[0] as int - b[0] as int
    else JavaCompare(a[1..], b[1..])
  }

  /** Swapping the operands negates the comparison. */
  lemma {:induction false} CompareAntisymmetric(a: string, b: string)
    ensures JavaCompare(a, b) == -JavaCompare(b, a)
  {
    if |a| != 0 && |b| != 0 && a[0] == b[0] {
      CompareAntisymmetric(a[1..], b[1..]);
    }
  }

  /** The comparison is zero exactly for equal strings. */
  lemma {:induction false} CompareZeroIffEqual(a: string, b: string)
    ensures JavaCompare(a, b) == 0 <==> a == b
  {
    if |a| != 0 && |b| != 0 && a[0] == b[0] {
      CompareZeroIffEqual(a[1..], b[1..]);
      assert a == [a[0]] + a[1..] && b == [b[0]] + b[1..];
    }
  }

  /** What Arrays.binarySearch demands: strictly ascending in compareTo order. */
  predicate StrictlyAscending(a: seq<string>)
  {
    forall i, j :: 0 <= i < j < |a| ==> JavaCompare(a[i], a[j]) < 0
  }

  /** Strings that agree on their first k characters and then differ compare by that character. */
  lemma {:induction false} CompareAtFirstDifference(a: string, b: string, k: nat)
    requires k < |a| && k < |b| && a[..k] == b[..k] && a[k] != b[k]
    ensures JavaCompare(a, b) == a[k] as int - b[k] as int
  {
    if k > 0 {
      assert a[0] == a[..k][0] && b[0] == b[..k][0];
      assert a[1..][..k - 1] == a[..k][1..] && b[1..][..k - 1] == b[..k][1..];
      CompareAtFirstDifference(a[1..], b[1..], k - 1);
    }
  }

  /** compareTo order is transitive. */
  lemma {:induction false} CompareTransitive(a: string, b: string, c: string)
    requires JavaCompare(a, b) < 0 && JavaCompare(b, c) < 0
    ensures JavaCompare(a, c) < 0
  {
    if |a| != 0 && |b| != 0 && |c| != 0 && a[0] == b[0] && b[0] == c[0] {
      CompareTransitive(a[1..], b[1..], c[1..]);
    }
  }

  /** Ascending neighbours make a strictly ascending table. */
  lemma {:induction false} AdjacentAscending(a: seq<string>)
    requires forall i :: 0 <= i < |a| - 1 ==> JavaCompare(a[i], a[i + 1]) < 0
    ensures StrictlyAscending(a)
    decreases |a|
  {
    if |a| > 1 {
      var t := a[1..];
      forall i | 0 <= i < |t| - 1
        ensures JavaCompare(t[i], t[i + 1]) < 0
      {
        assert t[i] == a[i + 1] && t[i + 1] == a[i + 2];
      }
      AdjacentAscending(t);
      forall i, j | 0 <= i < j < |a|
        ensures JavaCompare(a[i], a[j]) < 0
      {
        if i > 0 {
          assert a[i] == t[i - 1] && a[j] == t[j - 1];
        } else if j > 1 {
          assert a[1] == t[0] && a[j] == t[j - 1];
          CompareTransitive(a[0], a[1], a[j]);
        }
      }
    }
  }

  /** The `names` table meets the precondition of Arrays.binarySearch. */
  lemma NamesStrictlyAscending()
    ensures StrictlyAscending(Names)
  {
    CompareAtFirstDifference(Names[0], Names[1], 5);
    CompareAtFirstDifference(Names[1], Names[2], 4);
    CompareAtFirstDifference(Names[2], Names[3], 0);
    CompareAtFirstDifference(Names[3], Names[4], 0);
    CompareAtFirstDifference(Names[4], Names[5], 0);
    CompareAtFirstDifference(Names[5], Names[6], 6);
    CompareAtFirstDifference(Names[6], Names[7], 0);
    CompareAtFirstDifference(Names[7], Names[8], 1);
    AdjacentAscending(Names);
  }

  // ---------------------------------------------------------------------------
  // Arrays.binarySearch

  /** Up to a middle entry that compares below the key, every entry compares below it. */
  lemma MissBelow(a: seq<string>, key: string, low: int, mid: int)
    requires StrictlyAscending(a) && 0 <= low <= mid < |a|
    requires JavaCompare(a[mid], key) < 0
    ensures forall i :: low <= i <= mid ==> JavaCompare(a[i], key) < 0 && a[i] != key
  {
    forall i | low <= i <= mid
      ensures JavaCompare(a[i], key) < 0 && a[i] != key
    {
      if i < mid {
        CompareTransitive(a[i], a[mid], key);
      }
      CompareZeroIffEqual(a[i], key);
    }
  }

  /** From a middle entry that compares above the key, every entry compares above it. */
  lemma MissAbove(a: seq<string>, key: string, mid: int, high: int)
    requires StrictlyAscending(a) && 0 <= mid <= high < |a|
    requires JavaCompare(a[mid], key) > 0
    ensures forall i :: mid <= i <= high ==> JavaCompare(a[i], key) > 0 && a[i] != key
  {
    forall i | mid <= i <= high
      ensures JavaCompare(a[i], key) > 0 && a[i] != key
    {
      if mid < i {
        CompareAntisymmetric(a[mid], key);
        CompareTransitive(key, a[mid], a[i]);
        CompareAntisymmetric(key, a[i]);
      }
      CompareZeroIffEqual(a[i], key);
    }
  }

  /**
   * Arrays.binarySearch on a[low..high]: the position of the key, or
   * -(insertion point + 1) when the key is absent, where the entries before
   * the insertion point compare below the key and the rest above it.
   */
  function BinarySearch(a: seq<string>, key: string, low: int, high: int): (r: int)
    requires StrictlyAscending(a)
    requires 0 <= low && high < |a| && low <= high + 1
    ensures 0 <= r ==> low <= r <= high && a[r] == key
    ensures r < 0 ==> -(high + 2) <= r <= -(low + 1) && forall i :: low <= i <= high ==> a[i] != key
    ensures r < 0 ==>
      (forall i :: low <= i < -(r + 1) ==> JavaCompare(a[i], key) < 0)
      && (forall i :: -(r + 1) <= i <= high ==> JavaCompare(a[i], key) > 0)
    decreases high - low
  {
    if low > high then -(low + 1)
    else
      var mid := (low + high) / 2;
      var cmp := JavaCompare(a[mid], key);
      if cmp < 0 then
        MissBelow(a, key, low, mid);
        BinarySearch(a, key, mid + 1, high)
      else if cmp > 0 then
        MissAbove(a, key, mid, high);
        BinarySearch(a, key, low, mid - 1)
      else
        CompareZeroIffEqual(a[mid], key);
        mid
  }

  // ---------------------------------------------------------------------------
  // getIndex

  /** The message of the IllegalArgumentException for an unknown name. */
  function NotFound(name: string): string
  {
    "Could not find " + name + " in image map."
  }

  /**
   * getIndex: the texture index paired with the name; an unknown name is an
   * error and yields no index.
   */
  function GetIndex(name: string): (r: Result<int>)
    ensures r.Ok? <==> name in Names
    ensures r.Ok? ==> exists i :: 0 <= i < |Names| && Names[i] == name && r.value == Indexes[i]
    ensures r.Err? ==> r.message == NotFound(name)
  {
    NamesStrictlyAscending();
    var arrindex := BinarySearch(Names, name, 0, |Names| - 1);
    if arrindex < 0 then Err(NotFound(name)) else Ok(Indexes[arrindex])
  }

  // ---------------------------------------------------------------------------
  // The reference lookup and what getIndex promises

  /** A linear scan over the paired tables: the reference getIndex must agree with. */
  function LinearLookup(names: seq<string>, indexes: seq<int>, name: string): Result<int>
    requires |names| == |indexes|
  {
    if names == [] then Err(NotFound(name))
    else if names[0] == name then Ok(indexes[0])
    else LinearLookup(names[1..], indexes[1..], name)
  }

  /** In a table without duplicates the scan answers the partner of the name's position. */
  lemma {:induction false} LinearLookupFinds(names: seq<string>, indexes: seq<int>, name: string, i: int)
    requires |names| == |indexes| && 0 <= i < |names| && names[i] == name
    requires forall j, k :: 0 <= j < k < |names| ==> names[j] != names[k]
    ensures LinearLookup(names, indexes, name) == Ok(indexes[i])
  {
    if i > 0 {
      assert names[0] != names[i];
      LinearLookupFinds(names[1..], indexes[1..], name, i - 1);
    }
  }

  /** The scan fails exactly for names not in the table. */
  lemma {:induction false} LinearLookupMisses(names: seq<string>, indexes: seq<int>, name: string)
    requires |names| == |indexes| && name !in names
    ensures LinearLookup(names, indexes, name) == Err(NotFound(name))
  {
    if names != [] {
      assert names[0] != name;
      assert name !in names[1..];
      LinearLookupMisses(names[1..], indexes[1..], name);
    }
  }

  /** A strictly ascending table has no duplicates. */
  lemma AscendingIsDistinct(a: seq<string>)
    requires StrictlyAscending(a)
    ensures forall j, k :: 0 <= j < k < |a| ==> a[j] != a[k]
  {
    forall j, k | 0 <= j < k < |a|
      ensures a[j] != a[k]
    {
      CompareZeroIffEqual(a[j], a[k]);
    }
  }

  /** getIndex agrees with the linear scan of the paired tables, for every name. */
  lemma GetIndexIsLinearLookup(name: string)
    ensures GetIndex(name) == LinearLookup(Names, Indexes, name)
  {
    NamesStrictlyAscending();
    AscendingIsDistinct(Names);
    if name in Names {
      var i :| 0 <= i < |Names| && Names[i] == name;
      LinearLookupFinds(Names, Indexes, name, i);
      var j :| 0 <= j < |Names| && Names[j] == name && GetIndex(name).value == Indexes[j];
      assert i == j;
    } else {
      LinearLookupMisses(Names, Indexes, name);
    }
  }

  /** Every name of the table has a partner, and every answer lies in 0..8. */
  lemma GetIndexInRange(name: string)
    ensures |Names| == |Indexes|
    ensures GetIndex(name).Ok? ==> 0 <= GetIndex(name).value <= 8
  {
    var r := GetIndex(name);
    if r.Ok? {
      var i :| 0 <= i < |Names| && Names[i] == name && r.value == Indexes[i];
      IndexesInRange(i);
    }
  }

  /** Each entry of the `indexes` table lies in 0..8. */
  lemma IndexesInRange(i: int)
    requires 0 <= i < |Indexes|
    ensures 0 <= Indexes[i] <= 8
  {
  }
}
