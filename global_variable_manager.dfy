/** The global-variable list of the editor: the order in which global variables are listed
    (`compare_global_variables`) and the refresh of the sorted list store
    (`update_global_variables_list_store`). */
module GlobalVariableManager {
  import opened PyStrings

  // ---------------------------------------------------------------------------
  // The encoding: ' '.join(format(ord(x), 'b') for x in name)
  // ---------------------------------------------------------------------------

  /** `format(ord(c), 'b')`: the binary numeral of a character's code point. */
  function CharBits(c: char): (bits: string)
    ensures |bits| >= 1 && AllDigits(bits, 2)
  {
    Digits(c as int, 2)
  }

  /** The per-character binary numerals of a name, in order. */
  function NameBitList(name: string): seq<string>
  {
    seq(|name|, i requires 0 <= i < |name| => CharBits(name[i]))
  }

  /** The string the comparator actually compares. */
  function NameBits(name: string): (bits: string)
    ensures |bits| == 0 <==> |name| == 0
  {
    Join(NameBitList(name), ' ')
  }

  /** The generator yields one numeral per character, and the i-th reads back as the code point
      of the i-th character. */
  lemma NameBitListReadsBack(name: string)
    ensures |NameBitList(name)| == |name|
    ensures forall i :: 0 <= i < |name| ==>
      AllDigits(NameBitList(name)[i], 2) && ValueOf(NameBitList(name)[i], 2) == name[i] as int
  {
    forall i | 0 <= i < |name|
      ensures AllDigits(NameBitList(name)[i], 2) && ValueOf(NameBitList(name)[i], 2) == name[i] as int
    {
      ValueOfDigits(name[i] as int, 2);
    }
  }

  /** The encoding consists of binary digits and separating spaces only. */
  lemma NameBitsAlphabet(name: string)
    ensures forall k :: 0 <= k < |NameBits(name)| ==> NameBits(name)[k] in {'0', '1', ' '}
  {
    forall k | 0 <= k < |NameBits(name)|
      ensures NameBits(name)[k] in {'0', '1', ' '}
    {
      JoinAlphabet(NameBitList(name), k);
    }
  }

  /** Every character of a space-joined list of binary numerals is a binary digit or a space. */
  lemma {:induction false} JoinAlphabet(parts: seq<string>, k: nat)
    requires forall i :: 0 <= i < |parts| ==> AllDigits(parts[i], 2)
    requires k < |Join(parts, ' ')|
    ensures Join(parts, ' ')[k] in {'0', '1', ' '}
  {
    if |parts| > 1 {
      var head := parts[0] + [' '];
      if k >= |head| {
        JoinAlphabet(parts[1..], k - |head|);
      }
    }
  }

  /** The encoding is injective: the binary numerals carry no space and are never empty. */
  lemma NameBitsInjective(a: string, b: string)
    requires NameBits(a) == NameBits(b)
    ensures a == b
  {
    var pa, pb := NameBitList(a), NameBitList(b);
    // the encoding of a non-empty name starts with a non-empty numeral
    if |a| == 0 || |b| == 0 {
      if |a| != |b| {
        assert false;
      }
    } else {
      forall i | 0 <= i < |pa| ensures ' ' !in pa[i] {
        assert forall k :: 0 <= k < |pa[i]| ==> IsDigit(pa[i][k], 2);
      }
      forall i | 0 <= i < |pb| ensures ' ' !in pb[i] {
        assert forall k :: 0 <= k < |pb[i]| ==> IsDigit(pb[i][k], 2);
      }
      SplitJoin(pa, ' ');
      SplitJoin(pb, ' ');
      NameBitListReadsBack(a);
      NameBitListReadsBack(b);
      forall i | 0 <= i < |a| ensures a[i] == b[i] {
        assert ValueOf(pa[i], 2) == ValueOf(pb[i], 2);
      }
    }
  }

  // ---------------------------------------------------------------------------
  // Python's `<` on str: lexicographic order on code points
  // ---------------------------------------------------------------------------

  predicate StrLess(a: string, b: string)
  {
    if a == [] then b != []
    else if b == [] then false
    else if a[0] != b[0] then a[0] < b[0]
    else StrLess(a[1..], b[1..])
  }

  /** `a` and `b` agree before position `k`, where `a` holds the smaller character. */
  predicate FirstDifferenceAt(a: string, b: string, k: int)
  {
    0 <= k < |a| && k < |b| && a[..k] == b[..k] && a[k] < b[k]
  }

  /** `a` is a proper prefix of `b`. */
  predicate ProperPrefix(a: string, b: string)
  {
    |a| < |b| && a == b[..|a|]
  }

  lemma {:induction false} ProperPrefixLess(a: string, b: string)
    requires ProperPrefix(a, b)
    ensures StrLess(a, b)
  {
    if a != [] {
      assert a[0] == b[0];
      assert ProperPrefix(a[1..], b[1..]);
      ProperPrefixLess(a[1..], b[1..]);
    }
  }

  lemma {:induction false} FirstDifferenceLess(a: string, b: string, k: int)
    requires FirstDifferenceAt(a, b, k)
    ensures StrLess(a, b)
  {
    if k > 0 {
      assert a[0] == a[..k][0] == b[..k][0] == b[0];
      assert a[1..][..k - 1] == a[..k][1..] == b[..k][1..] == b[1..][..k - 1];
      assert FirstDifferenceAt(a[1..], b[1..], k - 1);
      FirstDifferenceLess(a[1..], b[1..], k - 1);
    }
  }

  lemma {:induction false} LessHasWitness(a: string, b: string)
    requires StrLess(a, b)
    ensures ProperPrefix(a, b) || exists k :: FirstDifferenceAt(a, b, k)
  {
    if a == [] {
      assert a == b[..0];
    } else if a[0] != b[0] {
      assert FirstDifferenceAt(a, b, 0);
    } else {
      LessHasWitness(a[1..], b[1..]);
      if ProperPrefix(a[1..], b[1..]) {
        assert a == [a[0]] + a[1..] && b[..|a|] == [b[0]] + b[1..][..|a| - 1];
      } else {
        var k :| FirstDifferenceAt(a[1..], b[1..], k);
        assert a[..k + 1] == [a[0]] + a[1..][..k];
        assert b[..k + 1] == [b[0]] + b[1..][..k];
        assert FirstDifferenceAt(a, b, k + 1);
      }
    }
  }

  /** `StrLess` is the lexicographic order: `a` is a proper prefix of `b`, or the first
      position where they differ holds a smaller character in `a`. */
  lemma StrLessLexicographic(a: string, b: string)
    ensures StrLess(a, b) <==> ProperPrefix(a, b) || exists k :: FirstDifferenceAt(a, b, k)
  {
    if StrLess(a, b) {
      LessHasWitness(a, b);
    } else if ProperPrefix(a, b) {
      ProperPrefixLess(a, b);
    } else if k :| FirstDifferenceAt(a, b, k) {
      FirstDifferenceLess(a, b, k);
    }
  }

  lemma {:induction false} StrLessIrreflexive(a: string)
    ensures !StrLess(a, a)
  {
    if a != [] {
      StrLessIrreflexive(a[1..]);
    }
  }

  lemma {:induction false} StrLessAsymmetric(a: string, b: string)
    requires StrLess(a, b)
    ensures !StrLess(b, a)
  {
    if a != [] && b != [] && a[0] == b[0] {
      StrLessAsymmetric(a[1..], b[1..]);
    }
  }

  lemma {:induction false} StrLessConnected(a: string, b: string)
    requires a != b
    ensures StrLess(a, b) || StrLess(b, a)
  {
    if a != [] && b != [] && a[0] == b[0] {
      assert a == [a[0]] + a[1..] && b == [b[0]] + b[1..];
      StrLessConnected(a[1..], b[1..]);
    }
  }

  lemma {:induction false} StrLessTransitive(a: string, b: string, c: string)
    requires StrLess(a, b) && StrLess(b, c)
    ensures StrLess(a, c)
  {
    if a != [] && b != [] && c != [] && a[0] == b[0] && b[0] == c[0] {
      StrLessTransitive(a[1..], b[1..], c[1..]);
    }
  }

  // ---------------------------------------------------------------------------
  // compare_global_variables
  // ---------------------------------------------------------------------------

  /** The sort function of the global-variable list: 0 when the encodings are equal, 1 when the
      first encoding is the greater string, -1 otherwise. */
  function Compare(name1: string, name2: string): (r: int)
    ensures r in {-1, 0, 1}
  {
    var bits1, bits2 := NameBits(name1), NameBits(name2);
    if bits1 == bits2 then 0
    else if StrLess(bits2, bits1) then 1
    else -1
  }

  /** The comparator returns 0 exactly for equal names. */
  lemma CompareZeroIffEqual(a: string, b: string)
    ensures Compare(a, b) == 0 <==> a == b
  {
    if Compare(a, b) == 0 {
      NameBitsInjective(a, b);
    }
  }

  /** Swapping the arguments negates the result. */
  lemma CompareAntisymmetric(a: string, b: string)
    ensures Compare(a, b) == -Compare(b, a)
  {
    var ba, bb := NameBits(a), NameBits(b);
    if ba != bb {
      StrLessConnected(ba, bb);
      if StrLess(ba, bb) {
        StrLessAsymmetric(ba, bb);
      }
    }
  }

  /** Listing order is transitive. */
  lemma CompareTransitive(a: string, b: string, c: string)
    requires Compare(a, b) < 0 && Compare(b, c) < 0
    ensures Compare(a, c) < 0
  {
    var ba, bb, bc := NameBits(a), NameBits(b), NameBits(c);
    CompareAntisymmetric(a, b);
    CompareAntisymmetric(b, c);
    StrLessTransitive(ba, bb, bc);
    if ba == bc {
      StrLessAsymmetric(ba, bb);
    } else {
      StrLessAsymmetric(ba, bc);
    }
  }

  /** The non-strict form, as a sort uses it. */
  lemma CompareTransitiveNonStrict(a: string, b: string, c: string)
    requires Compare(a, b) <= 0 && Compare(b, c) <= 0
    ensures Compare(a, c) <= 0
  {
    CompareZeroIffEqual(a, b);
    CompareZeroIffEqual(b, c);
    if Compare(a, b) < 0 && Compare(b, c) < 0 {
      CompareTransitive(a, b, c);
    }
  }

  /** "a is listed before b" is a strict total order on names. */
  lemma ListedBeforeIsStrictTotalOrder(a: string, b: string, c: string)
    ensures Compare(a, a) >= 0
    ensures Compare(a, b) < 0 && Compare(b, c) < 0 ==> Compare(a, c) < 0
    ensures a != b ==> Compare(a, b) < 0 || Compare(b, a) < 0
  {
    CompareZeroIffEqual(a, a);
    if Compare(a, b) < 0 && Compare(b, c) < 0 {
      CompareTransitive(a, b, c);
    }
    CompareZeroIffEqual(a, b);
    CompareAntisymmetric(a, b);
  }

  /** The listing order is not character order: "A" (1000001) is listed before "0" (110000)
      although 'A' comes after '0'. */
  lemma NotCharacterOrder()
    ensures '0' < 'A'
    ensures Compare("A", "0") == -1
  {
    assert Digits(2, 2) == "10" && Digits(4, 2) == "100" && Digits(8, 2) == "1000";
    assert Digits(16, 2) == "10000" && Digits(32, 2) == "100000";
    assert CharBits('A') == Digits(65, 2) == "1000001";
    assert Digits(3, 2) == "11" && Digits(6, 2) == "110" && Digits(12, 2) == "1100";
    assert Digits(24, 2) == "11000";
    assert CharBits('0') == Digits(48, 2) == "110000";
    assert NameBitList("A") == ["1000001"];
    assert NameBitList("0") == ["110000"];
    assert StrLess("1000001", "110000");
    StrLessAsymmetric("1000001", "110000");
  }

  // ---------------------------------------------------------------------------
  // update_global_variables_list_store
  // ---------------------------------------------------------------------------

  /** One row of the list store: the variable's key and its representation. */
  datatype GlobalVariableRow = GlobalVariableRow(name: string, representation: string)

  /** Rows in the comparator's ascending order. */
  ghost predicate SortedByName(rows: seq<GlobalVariableRow>)
  {
    forall i, j :: 0 <= i < j < |rows| ==> Compare(rows[i].name, rows[j].name) <= 0
  }

  /** Rows that agree on the name agree entirely (the representation is a function of the key). */
  ghost predicate NameDeterminesRow(rows: seq<GlobalVariableRow>)
  {
    forall i, j :: 0 <= i < |rows| && 0 <= j < |rows| && rows[i].name == rows[j].name ==> rows[i] == rows[j]
  }

  /** The unsorted rows, one per key, as the temporary store receives them. */
  function KeyRows(keys: seq<string>, representation: string -> string): (rows: seq<GlobalVariableRow>)
    ensures |rows| == |keys|
    ensures forall i :: 0 <= i < |keys| ==> rows[i].name == keys[i]
    ensures forall i :: 0 <= i < |rows| ==> rows[i].representation == representation(rows[i].name)
    ensures NameDeterminesRow(rows)
  {
    seq(|keys|, i requires 0 <= i < |keys| => GlobalVariableRow(keys[i], representation(keys[i])))
  }

  /** Puts `row` in front of the first row it does not follow. */
  function InsertRow(row: GlobalVariableRow, sorted: seq<GlobalVariableRow>): (r: seq<GlobalVariableRow>)
    ensures multiset(r) == multiset(sorted) + multiset{row}
  {
    if sorted == [] then [row]
    else if Compare(row.name, sorted[0].name) <= 0 then [row] + sorted
    else
      assert sorted == [sorted[0]] + sorted[1..];
      [sorted[0]] + InsertRow(row, sorted[1..])
  }

  /** The order the sorted model (gtk.TreeModelSort with compare_global_variables) presents. */
  function SortRows(rows: seq<GlobalVariableRow>): (r: seq<GlobalVariableRow>)
    ensures multiset(r) == multiset(rows)
  {
    if rows == [] then []
    else
      assert rows == [rows[0]] + rows[1..];
      InsertRow(rows[0], SortRows(rows[1..]))
  }

  /** A row that does not follow any row of an ascending arrangement can go in front of it. */
  lemma ConsSorted(x: GlobalVariableRow, rest: seq<GlobalVariableRow>)
    requires SortedByName(rest)
    requires forall j :: 0 <= j < |rest| ==> Compare(x.name, rest[j].name) <= 0
    ensures SortedByName([x] + rest)
  {
    var r := [x] + rest;
    forall i, j | 0 <= i < j < |r| ensures Compare(r[i].name, r[j].name) <= 0 {
      if i == 0 {
        assert r[j] == rest[j - 1];
      } else {
        assert r[i] == rest[i - 1] && r[j] == rest[j - 1];
      }
    }
  }

  /** Inserting into an ascending arrangement keeps it ascending. */
  lemma {:induction false} InsertRowSorted(row: GlobalVariableRow, sorted: seq<GlobalVariableRow>)
    requires SortedByName(sorted)
    ensures SortedByName(InsertRow(row, sorted))
  {
    if sorted == [] {
    } else if Compare(row.name, sorted[0].name) <= 0 {
      forall j | 0 <= j < |sorted| ensures Compare(row.name, sorted[j].name) <= 0 {
        if j > 0 {
          CompareTransitiveNonStrict(row.name, sorted[0].name, sorted[j].name);
        }
      }
      ConsSorted(row, sorted);
    } else {
      var first, rest := sorted[0], InsertRow(row, sorted[1..]);
      InsertRowSorted(row, sorted[1..]);
      CompareAntisymmetric(row.name, first.name);
      forall j | 0 <= j < |rest| ensures Compare(first.name, rest[j].name) <= 0 {
        assert rest[j] in multiset(rest);
        if rest[j] != row {
          assert rest[j] in multiset(sorted[1..]);
          var k :| 0 <= k < |sorted[1..]| && sorted[1..][k] == rest[j];
          assert sorted[k + 1] == rest[j];
        }
      }
      ConsSorted(first, rest);
    }
  }

  /** The sorted rows are in ascending order and are a permutation of the input. */
  lemma {:induction false} SortRowsSorted(rows: seq<GlobalVariableRow>)
    ensures SortedByName(SortRows(rows))
    ensures multiset(SortRows(rows)) == multiset(rows)
  {
    if rows != [] {
      SortRowsSorted(rows[1..]);
      InsertRowSorted(rows[0], SortRows(rows[1..]));
    }
  }

  /** The first row of an ascending arrangement does not follow any of its rows. */
  lemma HeadIsLeast(a: seq<GlobalVariableRow>, x: GlobalVariableRow)
    requires SortedByName(a) && x in multiset(a)
    ensures Compare(a[0].name, x.name) <= 0
  {
    var k :| 0 <= k < |a| && a[k] == x;
    if k == 0 {
      CompareZeroIffEqual(x.name, x.name);
    }
  }

  /** Dropping the first row keeps the order and the name-row agreement, and removes exactly that row. */
  lemma DropFirst(a: seq<GlobalVariableRow>)
    requires a != []
    ensures SortedByName(a) ==> SortedByName(a[1..])
    ensures NameDeterminesRow(a) ==> NameDeterminesRow(a[1..])
    ensures multiset(a[1..]) == multiset(a) - multiset{a[0]}
  {
    assert a == [a[0]] + a[1..];
  }

  /** Any ascending arrangement of the same rows is the same sequence: the store's contents do
      not depend on the sort algorithm nor on the order in which the keys were delivered. */
  lemma {:induction false} SortedArrangementUnique(a: seq<GlobalVariableRow>, b: seq<GlobalVariableRow>)
    requires SortedByName(a) && SortedByName(b)
    requires multiset(a) == multiset(b)
    requires NameDeterminesRow(a)
    ensures a == b
  {
    if a == [] {
      assert |b| == |multiset(b)| == 0;
    } else {
      assert |b| == |multiset(b)| == |a|;
      assert a[0] in multiset(b) && b[0] in multiset(a);
      HeadIsLeast(a, b[0]);
      HeadIsLeast(b, a[0]);
      CompareAntisymmetric(a[0].name, b[0].name);
      CompareZeroIffEqual(a[0].name, b[0].name);
      var ib :| 0 <= ib < |a| && a[ib] == b[0];
      assert a[0] == b[0];
      DropFirst(a);
      DropFirst(b);
      SortedArrangementUnique(a[1..], b[1..]);
    }
  }

  /** Rearranging rows keeps the name-row agreement. */
  lemma NameDeterminesRowPermutation(a: seq<GlobalVariableRow>, b: seq<GlobalVariableRow>)
    requires multiset(a) == multiset(b) && NameDeterminesRow(b)
    ensures NameDeterminesRow(a)
  {
    forall i, j | 0 <= i < |a| && 0 <= j < |a| && a[i].name == a[j].name ensures a[i] == a[j] {
      assert a[i] in multiset(b) && a[j] in multiset(b);
      var ki :| 0 <= ki < |b| && b[ki] == a[i];
      var kj :| 0 <= kj < |b| && b[kj] == a[j];
    }
  }

  /** Whatever correct sort produced the rows shown, they are the rows this model computes. */
  lemma AnyCorrectSortAgrees(keys: seq<string>, representation: string -> string, shown: seq<GlobalVariableRow>)
    requires SortedByName(shown)
    requires multiset(shown) == multiset(KeyRows(keys, representation))
    ensures shown == SortRows(KeyRows(keys, representation))
  {
    var rows := KeyRows(keys, representation);
    SortRowsSorted(rows);
    NameDeterminesRowPermutation(shown, rows);
    SortedArrangementUnique(shown, SortRows(rows));
  }

  /** The sorted store holds a row exactly for each key, paired with that key's representation. */
  lemma SortedRowsAreKeyRows(keys: seq<string>, representation: string -> string)
    ensures forall r :: r in SortRows(KeyRows(keys, representation)) <==>
      r.name in keys && r.representation == representation(r.name)
  {
    var rows := KeyRows(keys, representation);
    forall r
      ensures r in SortRows(rows) <==> r.name in keys && r.representation == representation(r.name)
    {
      assert r in SortRows(rows) <==> r in multiset(SortRows(rows));
      assert r in rows <==> r in multiset(rows);
      if r.name in keys && r.representation == representation(r.name) {
        var i :| 0 <= i < |keys| && keys[i] == r.name;
        assert rows[i] == r;
      }
    }
  }

  /** The model's view of the global-variable list store. */
  class GlobalVariableManagerModel {
    var globalVariablesListStore: seq<GlobalVariableRow>

    /** `get_all_keys()` and `get_representation` of the manager are given as `keys` and
        `representation`. */
    constructor (keys: seq<string>, representation: string -> string)
      ensures globalVariablesListStore == SortRows(KeyRows(keys, representation))
    {
      globalVariablesListStore := [];
      new;
      UpdateGlobalVariablesListStore(keys, representation);
    }

    /** Rebuilds the store: one row per key, in the comparator's order, and nothing else. */
    method UpdateGlobalVariablesListStore(keys: seq<string>, representation: string -> string)
      modifies this
      ensures globalVariablesListStore == SortRows(KeyRows(keys, representation))
      ensures SortedByName(globalVariablesListStore)
      ensures multiset(globalVariablesListStore) == multiset(KeyRows(keys, representation))
      ensures forall r :: r in globalVariablesListStore <==>
        r.name in keys && r.representation == representation(r.name)
    {
      var tmp: seq<GlobalVariableRow> := [];
      for i := 0 to |keys|
        invariant |tmp| == i
        invariant forall j :: 0 <= j < i ==> tmp[j] == GlobalVariableRow(keys[j], representation(keys[j]))
      {
        tmp := tmp + [GlobalVariableRow(keys[i], representation(keys[i]))];
      }
      assert tmp == KeyRows(keys, representation);
      SortRowsSorted(tmp);
      SortedRowsAreKeyRows(keys, representation);
      var sorted := SortRows(tmp);
      // `clear()` and the appends, built up locally and stored at once
      var store: seq<GlobalVariableRow> := [];
      for i := 0 to |sorted|
        invariant store == sorted[..i]
      {
        store := store + [sorted[i]];
      }
      assert sorted[..|sorted|] == sorted;
      globalVariablesListStore := store;
    }
  }
}
