/**
 * The total-order comparator on JSON values of src/lib/json.ts.
 *
 * Values are ordered primitives < arrays < records; among primitives `null` is
 * the least; arrays compare by length and then element by element; records
 * compare their key lists (in insertion order) and then their values in the
 * first record's key order.
 *
 * The comparator is given twice: as specification functions (CompareValue and
 * friends), about which the ordering lemmas are proved, and as the source's
 * imperative code (CompareJsonValue and friends, whose array and record
 * comparisons are `while` loops with early return), each proved to compute
 * its specification function.
 */
module Json {

  /** A JSON value. A record keeps its members in insertion order, the order `Object.keys` reports. */
  datatype JsonValue =
    | Null
    | Bool(b: bool)
    | Num(n: int)
    | Str(s: string)
    | Arr(items: seq<JsonValue>)
    | Obj(members: seq<Member>)

  /** One key/value pair of a record. */
  datatype Member = Member(key: string, value: JsonValue)

  /** `isJsonPrimitive`: strings, numbers, booleans and null. */
  predicate IsPrimitive(v: JsonValue) {
    !v.Arr? && !v.Obj?
  }

  // ---------------------------------------------------------------------------
  // Nesting height: the termination measure of the comparator
  // ---------------------------------------------------------------------------

  function Max(x: nat, y: nat): nat {
    if x < y then y else x
  }

  function Height(v: JsonValue): nat {
    match v
    case Arr(items) => 1 + ItemsHeight(items)
    case Obj(members) => 1 + MembersHeight(members)
    case _ => 0
  }

  function ItemsHeight(items: seq<JsonValue>): (h: nat)
    ensures forall i :: 0 <= i < |items| ==> Height(items[i]) <= h
  {
    if items == [] then 0 else Max(Height(items[0]), ItemsHeight(items[1..]))
  }

  function MembersHeight(members: seq<Member>): (h: nat)
    ensures forall i :: 0 <= i < |members| ==> Height(members[i].value) <= h
  {
    if members == [] then 0 else Max(Height(members[0].value), MembersHeight(members[1..]))
  }

  // ---------------------------------------------------------------------------
  // Record keys and member lookup
  // ---------------------------------------------------------------------------

  /** `Object.keys(record)`. */
  function Keys(members: seq<Member>): (ks: seq<string>)
    ensures |ks| == |members|
    ensures forall i :: 0 <= i < |members| ==> ks[i] == members[i].key
  {
    if members == [] then [] else [members[0].key] + Keys(members[1..])
  }

  /** An array of strings as a JSON array, the form in which the source compares key lists. */
  function StrArray(ks: seq<string>): (a: seq<JsonValue>)
    ensures |a| == |ks|
    ensures forall i :: 0 <= i < |ks| ==> a[i] == Str(ks[i])
  {
    if ks == [] then [] else [Str(ks[0])] + StrArray(ks[1..])
  }

  /**
   * `record[k]`: the value of the first member with key `k`. A key the record
   * lacks gives `null`; the comparator only looks up keys both records have.
   */
  function Lookup(members: seq<Member>, k: string): (v: JsonValue)
    ensures Height(v) <= MembersHeight(members)
  {
    if members == [] then Null
    else if members[0].key == k then members[0].value
    else Lookup(members[1..], k)
  }

  // ---------------------------------------------------------------------------
  // Primitives
  // ---------------------------------------------------------------------------

  /** JavaScript's `<` on two strings: lexicographic by character code, a proper prefix being smaller. */
  predicate StringLess(s: string, t: string) {
    if s == [] then t != []
    else if t == [] then false
    else if s[0] != t[0] then s[0] < t[0]
    else StringLess(s[1..], t[1..])
  }

  /** JavaScript's `<` on two non-null primitives of the same type; primitives of different types are not ordered here. */
  predicate PrimitiveLess(a: JsonValue, b: JsonValue) {
    match (a, b)
    case (Bool(x), Bool(y)) => !x && y
    case (Num(x), Num(y)) => x < y
    case (Str(x), Str(y)) => StringLess(x, y)
    case _ => false
  }

  /** `compareJsonPrimitive`: null first, then `a > b ? 1 : a < b ? -1 : 0`. */
  function ComparePrimitive(a: JsonValue, b: JsonValue): (r: int)
    requires IsPrimitive(a) && IsPrimitive(b)
    ensures -1 <= r <= 1
  {
    if a.Null? then (if b.Null? then 0 else -1)
    else if b.Null? then 1
    else if PrimitiveLess(b, a) then 1
    else if PrimitiveLess(a, b) then -1
    else 0
  }

  // ---------------------------------------------------------------------------
  // The comparator, as specification functions
  // ---------------------------------------------------------------------------

  /** `compareJsonValue`. */
  function CompareValue(a: JsonValue, b: JsonValue): (r: int)
    ensures -1 <= r <= 1
    decreases Height(a), 2, 0
  {
    if IsPrimitive(a) then (if IsPrimitive(b) then ComparePrimitive(a, b) else -1)
    else if IsPrimitive(b) then 1
    else CompareObjects(a, b)
  }

  /** `compareJsonObjects`: arrays before records. */
  function CompareObjects(a: JsonValue, b: JsonValue): (r: int)
    requires !IsPrimitive(a) && !IsPrimitive(b)
    ensures -1 <= r <= 1
    decreases Height(a), 1, 0
  {
    if a.Arr? then (if b.Arr? then CompareArray(a.items, b.items) else -1)
    else if b.Arr? then 1
    else CompareRecords(a.members, b.members)
  }

  /** `compareJsonArray`: the shorter array first, then element by element. */
  function CompareArray(a: seq<JsonValue>, b: seq<JsonValue>): (r: int)
    ensures -1 <= r <= 1
    decreases ItemsHeight(a), 4, 0
  {
    if |a| < |b| then -1
    else if |a| > |b| then 1
    else CompareItemsFrom(a, b, 0)
  }

  /** The loop of `compareJsonArray` from position `i` on. */
  function CompareItemsFrom(a: seq<JsonValue>, b: seq<JsonValue>, i: nat): (r: int)
    requires |a| == |b| && i <= |a|
    ensures -1 <= r <= 1
    decreases ItemsHeight(a), 3, |a| - i
  {
    if i == |a| then 0
    else
      var c := CompareValue(a[i], b[i]);
      if c != 0 then c else CompareItemsFrom(a, b, i + 1)
  }

  /** `compareJsonRecords`: key lists first, then values in the first record's key order. */
  function CompareRecords(a: seq<Member>, b: seq<Member>): (r: int)
    ensures -1 <= r <= 1
    decreases MembersHeight(a), 5, 0
  {
    var c := CompareKeys(Keys(a), Keys(b));
    if c != 0 then c else CompareMembersFrom(a, b, 0)
  }

  /** The loop of `compareJsonRecords` from position `i` on: `compareJsonValue(a[key], b[key])`. */
  function CompareMembersFrom(a: seq<Member>, b: seq<Member>, i: nat): (r: int)
    requires i <= |a|
    ensures -1 <= r <= 1
    decreases MembersHeight(a), 4, |a| - i
  {
    if i == |a| then 0
    else
      var c := CompareAtKey(a, b, i);
      if c != 0 then c else CompareMembersFrom(a, b, i + 1)
  }

  /** `compareJsonValue(a[key], b[key])` for the `i`-th key of `a`. */
  function CompareAtKey(a: seq<Member>, b: seq<Member>, i: nat): (r: int)
    requires i < |a|
    ensures -1 <= r <= 1
    decreases MembersHeight(a), 3, 0
  {
    var key := a[i].key;
    CompareValue(Lookup(a, key), Lookup(b, key))
  }

  /**
   * `compareJsonArray` applied to two key lists, written on strings.
   * CompareKeysAsArray proves it equal to CompareArray on the keys as JSON strings.
   */
  function CompareKeys(ka: seq<string>, kb: seq<string>): (r: int)
    ensures -1 <= r <= 1
  {
    if |ka| < |kb| then -1
    else if |ka| > |kb| then 1
    else CompareKeysFrom(ka, kb, 0)
  }

  function CompareKeysFrom(ka: seq<string>, kb: seq<string>, i: nat): (r: int)
    requires |ka| == |kb| && i <= |ka|
    ensures -1 <= r <= 1
    decreases |ka| - i
  {
    if i == |ka| then 0
    else
      var c := ComparePrimitive(Str(ka[i]), Str(kb[i]));
      if c != 0 then c else CompareKeysFrom(ka, kb, i + 1)
  }

  // ---------------------------------------------------------------------------
  // Facts about strings and primitives
  // ---------------------------------------------------------------------------

  lemma {:induction false} StringLessIrreflexive(s: string)
    ensures !StringLess(s, s)
  {
    if s != [] {
      StringLessIrreflexive(s[1..]);
    }
  }

  lemma {:induction false} StringLessAsymmetric(s: string, t: string)
    ensures StringLess(s, t) ==> !StringLess(t, s)
  {
    if s != [] && t != [] && s[0] == t[0] {
      StringLessAsymmetric(s[1..], t[1..]);
    }
  }

  /** Two different strings are ordered one way or the other. */
  lemma {:induction false} StringLessTotal(s: string, t: string)
    ensures s != t ==> StringLess(s, t) || StringLess(t, s)
  {
    if s != [] && t != [] && s[0] == t[0] {
      StringLessTotal(s[1..], t[1..]);
      if s[1..] == t[1..] {
        assert s == [s[0]] + s[1..] && t == [t[0]] + t[1..];
      }
    }
  }

  /** Two strings compare equal exactly when they are the same string. */
  lemma StringCompareZero(s: string, t: string)
    ensures ComparePrimitive(Str(s), Str(t)) == 0 <==> s == t
  {
    StringLessIrreflexive(s);
    StringLessTotal(s, t);
  }

  lemma PrimitiveReflexive(a: JsonValue)
    requires IsPrimitive(a)
    ensures ComparePrimitive(a, a) == 0
  {
    if a.Str? {
      StringLessIrreflexive(a.s);
    }
  }

  lemma PrimitiveAntisymmetric(a: JsonValue, b: JsonValue)
    requires IsPrimitive(a) && IsPrimitive(b)
    ensures ComparePrimitive(a, b) == -ComparePrimitive(b, a)
  {
    if a.Str? && b.Str? {
      StringLessAsymmetric(a.s, b.s);
      StringLessAsymmetric(b.s, a.s);
    }
  }

  // ---------------------------------------------------------------------------
  // Key lists
  // ---------------------------------------------------------------------------

  lemma {:induction false} CompareKeysFromAsItems(ka: seq<string>, kb: seq<string>, i: nat)
    requires |ka| == |kb| && i <= |ka|
    ensures CompareKeysFrom(ka, kb, i) == CompareItemsFrom(StrArray(ka), StrArray(kb), i)
    decreases |ka| - i
  {
    if i < |ka| {
      var a, b := StrArray(ka), StrArray(kb);
      assert a[i] == Str(ka[i]) && b[i] == Str(kb[i]);
      assert CompareValue(a[i], b[i]) == ComparePrimitive(Str(ka[i]), Str(kb[i]));
      CompareKeysFromAsItems(ka, kb, i + 1);
    }
  }

  /** Comparing key lists as strings is what `compareJsonArray` does on them. */
  lemma CompareKeysAsArray(ka: seq<string>, kb: seq<string>)
    ensures CompareKeys(ka, kb) == CompareArray(StrArray(ka), StrArray(kb))
  {
    if |ka| == |kb| {
      CompareKeysFromAsItems(ka, kb, 0);
    }
  }

  lemma {:induction false} CompareKeysFromZero(ka: seq<string>, kb: seq<string>, i: nat)
    requires |ka| == |kb| && i <= |ka|
    requires CompareKeysFrom(ka, kb, i) == 0
    ensures ka[i..] == kb[i..]
    decreases |ka| - i
  {
    if i < |ka| {
      StringCompareZero(ka[i], kb[i]);
      CompareKeysFromZero(ka, kb, i + 1);
      assert ka[i..] == [ka[i]] + ka[i + 1..];
      assert kb[i..] == [kb[i]] + kb[i + 1..];
    }
  }

  /** Key lists compare equal only when they are the same list. */
  lemma CompareKeysZero(ka: seq<string>, kb: seq<string>)
    ensures CompareKeys(ka, kb) == 0 ==> ka == kb
  {
    if CompareKeys(ka, kb) == 0 {
      CompareKeysFromZero(ka, kb, 0);
    }
  }

  lemma {:induction false} CompareKeysFromReflexive(ks: seq<string>, i: nat)
    requires i <= |ks|
    ensures CompareKeysFrom(ks, ks, i) == 0
    decreases |ks| - i
  {
    if i < |ks| {
      StringCompareZero(ks[i], ks[i]);
      CompareKeysFromReflexive(ks, i + 1);
    }
  }

  lemma {:induction false} CompareKeysFromAntisymmetric(ka: seq<string>, kb: seq<string>, i: nat)
    requires |ka| == |kb| && i <= |ka|
    ensures CompareKeysFrom(ka, kb, i) == -CompareKeysFrom(kb, ka, i)
    decreases |ka| - i
  {
    if i < |ka| {
      PrimitiveAntisymmetric(Str(ka[i]), Str(kb[i]));
      CompareKeysFromAntisymmetric(ka, kb, i + 1);
    }
  }

  lemma {:induction false} KeyArrayHeight(ks: seq<string>)
    ensures ItemsHeight(StrArray(ks)) == 0
  {
    if ks != [] {
      KeyArrayHeight(ks[1..]);
      assert StrArray(ks)[1..] == StrArray(ks[1..]);
    }
  }

  /** Two arrays compare as `compareJsonArray` compares their elements. */
  lemma ArraysCompareAsArray(a: seq<JsonValue>, b: seq<JsonValue>)
    ensures CompareValue(Arr(a), Arr(b)) == CompareArray(a, b)
  {
    assert CompareValue(Arr(a), Arr(b)) == CompareObjects(Arr(a), Arr(b));
  }

  /** Two records compare as `compareJsonRecords` compares their members. */
  lemma RecordsCompareAsRecords(a: seq<Member>, b: seq<Member>)
    ensures CompareValue(Obj(a), Obj(b)) == CompareRecords(a, b)
  {
    assert CompareValue(Obj(a), Obj(b)) == CompareObjects(Obj(a), Obj(b));
  }

  // ---------------------------------------------------------------------------
  // The comparator is reflexive and antisymmetric
  // ---------------------------------------------------------------------------

  /** Every value compares equal to itself. */
  lemma {:induction false} CompareReflexive(a: JsonValue)
    ensures CompareValue(a, a) == 0
    decreases Height(a), 2, 0
  {
    if IsPrimitive(a) {
      PrimitiveReflexive(a);
    } else if a.Arr? {
      ArraysCompareAsArray(a.items, a.items);
      ItemsReflexive(a.items, 0);
    } else {
      RecordsCompareAsRecords(a.members, a.members);
      CompareKeysFromReflexive(Keys(a.members), 0);
      MembersReflexive(a.members, 0);
    }
  }

  lemma {:induction false} ItemsReflexive(a: seq<JsonValue>, i: nat)
    requires i <= |a|
    ensures CompareItemsFrom(a, a, i) == 0
    decreases ItemsHeight(a), 3, |a| - i
  {
    if i < |a| {
      CompareReflexive(a[i]);
      ItemsReflexive(a, i + 1);
    }
  }

  lemma {:induction false} MembersReflexive(a: seq<Member>, i: nat)
    requires i <= |a|
    ensures CompareMembersFrom(a, a, i) == 0
    decreases MembersHeight(a), 4, |a| - i
  {
    if i < |a| {
      CompareReflexive(Lookup(a, a[i].key));
      MembersReflexive(a, i + 1);
    }
  }

  /** Swapping the operands negates the result. */
  lemma {:induction false} CompareAntisymmetric(a: JsonValue, b: JsonValue)
    ensures CompareValue(a, b) == -CompareValue(b, a)
    decreases Height(a), 2, 0
  {
    if IsPrimitive(a) && IsPrimitive(b) {
      PrimitiveAntisymmetric(a, b);
    } else if a.Arr? && b.Arr? {
      ArraysCompareAsArray(a.items, b.items);
      ArraysCompareAsArray(b.items, a.items);
      if |a.items| == |b.items| {
        ItemsAntisymmetric(a.items, b.items, 0);
      }
    } else if a.Obj? && b.Obj? {
      RecordsCompareAsRecords(a.members, b.members);
      RecordsCompareAsRecords(b.members, a.members);
      var ka, kb := Keys(a.members), Keys(b.members);
      if |ka| == |kb| {
        CompareKeysFromAntisymmetric(ka, kb, 0);
      }
      CompareKeysZero(ka, kb);
      CompareKeysZero(kb, ka);
      if ka == kb {
        MembersAntisymmetric(a.members, b.members, 0);
      }
    }
  }

  lemma {:induction false} ItemsAntisymmetric(a: seq<JsonValue>, b: seq<JsonValue>, i: nat)
    requires |a| == |b| && i <= |a|
    ensures CompareItemsFrom(a, b, i) == -CompareItemsFrom(b, a, i)
    decreases ItemsHeight(a), 3, |a| - i
  {
    if i < |a| {
      CompareAntisymmetric(a[i], b[i]);
      ItemsAntisymmetric(a, b, i + 1);
    }
  }

  lemma {:induction false} MembersAntisymmetric(a: seq<Member>, b: seq<Member>, i: nat)
    requires Keys(a) == Keys(b) && i <= |a|
    ensures CompareMembersFrom(a, b, i) == -CompareMembersFrom(b, a, i)
    decreases MembersHeight(a), 4, |a| - i
  {
    if i < |a| {
      assert b[i].key == Keys(b)[i] == a[i].key;
      CompareAntisymmetric(Lookup(a, a[i].key), Lookup(b, a[i].key));
      MembersAntisymmetric(a, b, i + 1);
    }
  }

  // ---------------------------------------------------------------------------
  // The order between kinds, null, and array length
  // ---------------------------------------------------------------------------

  /** Every primitive is below every array or record, and every array below every record. */
  lemma KindOrder(a: JsonValue, b: JsonValue)
    ensures IsPrimitive(a) && !IsPrimitive(b) ==> CompareValue(a, b) == -1 && CompareValue(b, a) == 1
    ensures a.Arr? && b.Obj? ==> CompareValue(a, b) == -1 && CompareValue(b, a) == 1
  {
  }

  /** `null` equals `null` and is below every other primitive. */
  lemma NullLeast(a: JsonValue)
    requires IsPrimitive(a)
    ensures CompareValue(Null, a) == (if a.Null? then 0 else -1)
    ensures CompareValue(a, Null) == (if a.Null? then 0 else 1)
  {
  }

  /** A shorter array is below a longer one, whatever the elements. */
  lemma ShorterArrayFirst(a: seq<JsonValue>, b: seq<JsonValue>)
    requires |a| < |b|
    ensures CompareValue(Arr(a), Arr(b)) == -1
    ensures CompareValue(Arr(b), Arr(a)) == 1
  {
    ArraysCompareAsArray(a, b);
    ArraysCompareAsArray(b, a);
  }

  // ---------------------------------------------------------------------------
  // Lexicographic comparison of equal-length arrays and of records
  // ---------------------------------------------------------------------------

  /** From position `i` on, the loop finds no difference exactly when every remaining pair compares equal. */
  lemma {:induction false} ItemsFromZero(a: seq<JsonValue>, b: seq<JsonValue>, i: nat)
    requires |a| == |b| && i <= |a|
    ensures CompareItemsFrom(a, b, i) == 0 <==> forall j :: i <= j < |a| ==> CompareValue(a[j], b[j]) == 0
    decreases |a| - i
  {
    if i < |a| {
      ItemsFromZero(a, b, i + 1);
    }
  }

  /** Equal positions from `i` up to `k` can be skipped. */
  lemma {:induction false} ItemsSkipEqual(a: seq<JsonValue>, b: seq<JsonValue>, i: nat, k: nat)
    requires |a| == |b| && i <= k <= |a|
    requires forall j :: i <= j < k ==> CompareValue(a[j], b[j]) == 0
    ensures CompareItemsFrom(a, b, i) == CompareItemsFrom(a, b, k)
    decreases k - i
  {
    if i < k {
      ItemsSkipEqual(a, b, i + 1, k);
    }
  }

  /** Arrays of equal length compare equal exactly when every pair of elements does. */
  lemma ArrayAllEqual(a: seq<JsonValue>, b: seq<JsonValue>)
    requires |a| == |b|
    ensures CompareArray(a, b) == 0 <==> forall j :: 0 <= j < |a| ==> CompareValue(a[j], b[j]) == 0
  {
    ItemsFromZero(a, b, 0);
  }

  /** Otherwise arrays of equal length compare as their first unequal pair of elements. */
  lemma ArrayFirstDifference(a: seq<JsonValue>, b: seq<JsonValue>, k: nat)
    requires |a| == |b| && k < |a|
    requires forall j :: 0 <= j < k ==> CompareValue(a[j], b[j]) == 0
    requires CompareValue(a[k], b[k]) != 0
    ensures CompareArray(a, b) == CompareValue(a[k], b[k])
  {
    ItemsSkipEqual(a, b, 0, k);
  }

  /** Records with different key lists are ordered by those lists, compared as arrays of strings. */
  lemma RecordsKeysFirst(a: seq<Member>, b: seq<Member>)
    requires Keys(a) != Keys(b)
    ensures CompareValue(Obj(a), Obj(b)) == CompareArray(StrArray(Keys(a)), StrArray(Keys(b)))
    ensures CompareValue(Obj(a), Obj(b)) != 0
  {
    RecordsCompareAsRecords(a, b);
    CompareKeysAsArray(Keys(a), Keys(b));
    CompareKeysZero(Keys(a), Keys(b));
  }

  lemma {:induction false} MembersSkipEqual(a: seq<Member>, b: seq<Member>, i: nat, k: nat)
    requires i <= k <= |a|
    requires forall j :: i <= j < k ==> CompareAtKey(a, b, j) == 0
    ensures CompareMembersFrom(a, b, i) == CompareMembersFrom(a, b, k)
    decreases k - i
  {
    if i < k {
      MembersSkipEqual(a, b, i + 1, k);
    }
  }

  /** From position `i` on, the loop finds no difference exactly when every remaining key compares equal. */
  lemma MembersFromZero(a: seq<Member>, b: seq<Member>, i: nat)
    requires i <= |a|
    ensures (forall j :: i <= j < |a| ==> CompareAtKey(a, b, j) == 0) ==> CompareMembersFrom(a, b, i) == 0
    ensures CompareMembersFrom(a, b, i) == 0 ==> forall j :: i <= j < |a| ==> CompareAtKey(a, b, j) == 0
  {
    if forall j :: i <= j < |a| ==> CompareAtKey(a, b, j) == 0 {
      MembersSkipEqual(a, b, i, |a|);
      assert CompareMembersFrom(a, b, |a|) == 0;
    }
    if CompareMembersFrom(a, b, i) == 0 {
      MembersZeroAllEqual(a, b, i);
    }
  }

  lemma MembersZeroAllEqual(a: seq<Member>, b: seq<Member>, i: nat)
    requires i <= |a|
    requires CompareMembersFrom(a, b, i) == 0
    ensures forall j :: i <= j < |a| ==> CompareAtKey(a, b, j) == 0
  {
    forall j | i <= j < |a|
      ensures CompareAtKey(a, b, j) == 0
    {
      MembersZeroAt(a, b, i, j);
    }
  }

  /** When the loop from `i` finds no difference, the key at `j` compares equal. */
  lemma {:induction false} MembersZeroAt(a: seq<Member>, b: seq<Member>, i: nat, j: nat)
    requires i <= j < |a|
    requires CompareMembersFrom(a, b, i) == 0
    ensures CompareAtKey(a, b, j) == 0
    decreases j - i
  {
    if i == j {
      MembersZeroStep(a, b, i);
    } else {
      MembersZeroStep(a, b, i);
      assert CompareMembersFrom(a, b, i + 1) == 0;
      MembersZeroAt(a, b, i + 1, j);
    }
  }

  /** One step of the loop: no difference from `i` on means none at `i` and none from `i + 1` on. */
  lemma MembersZeroStep(a: seq<Member>, b: seq<Member>, i: nat)
    requires i < |a|
    requires CompareMembersFrom(a, b, i) == 0
    ensures CompareAtKey(a, b, i) == 0 && CompareMembersFrom(a, b, i + 1) == 0
  {
    var c := CompareAtKey(a, b, i);
    assert CompareMembersFrom(a, b, i) == if c != 0 then c else CompareMembersFrom(a, b, i + 1);
  }

  /** Records with the same key list go straight to the loop over their values. */
  lemma RecordsSameKeys(a: seq<Member>, b: seq<Member>)
    requires Keys(a) == Keys(b)
    ensures CompareValue(Obj(a), Obj(b)) == CompareMembersFrom(a, b, 0)
  {
    RecordsCompareAsRecords(a, b);
    CompareKeysFromReflexive(Keys(a), 0);
    assert CompareKeys(Keys(a), Keys(b)) == 0;
  }

  /** Records with the same key list compare equal exactly when the values under every key do. */
  lemma RecordsAllEqual(a: seq<Member>, b: seq<Member>)
    requires Keys(a) == Keys(b)
    ensures CompareValue(Obj(a), Obj(b)) == 0 ==> forall j :: 0 <= j < |a| ==> CompareAtKey(a, b, j) == 0
    ensures (forall j :: 0 <= j < |a| ==> CompareAtKey(a, b, j) == 0) ==> CompareValue(Obj(a), Obj(b)) == 0
  {
    RecordsSameKeys(a, b);
    MembersFromZero(a, b, 0);
  }

  /**
   * Otherwise records with the same key list compare as the values under the
   * first key, in the first record's order, whose values compare unequal.
   */
  lemma RecordsFirstDifference(a: seq<Member>, b: seq<Member>, k: nat)
    requires Keys(a) == Keys(b) && k < |a|
    requires forall j :: 0 <= j < k ==> CompareAtKey(a, b, j) == 0
    requires CompareAtKey(a, b, k) != 0
    ensures CompareValue(Obj(a), Obj(b)) == CompareAtKey(a, b, k)
  {
    RecordsSameKeys(a, b);
    MembersSkipEqual(a, b, 0, k);
  }

  // ---------------------------------------------------------------------------
  // The comparator as the source computes it
  // ---------------------------------------------------------------------------

  /** `compareJsonValue`. */
  method CompareJsonValue(a: JsonValue, b: JsonValue) returns (r: int)
    ensures r == CompareValue(a, b)
    decreases Height(a), 2, 0
  {
    if IsPrimitive(a) {
      r := if IsPrimitive(b) then ComparePrimitive(a, b) else -1;
    } else if IsPrimitive(b) {
      r := 1;
    } else {
      r := CompareJsonObjects(a, b);
    }
  }

  /** `compareJsonObjects`. */
  method CompareJsonObjects(a: JsonValue, b: JsonValue) returns (r: int)
    requires !IsPrimitive(a) && !IsPrimitive(b)
    ensures r == CompareObjects(a, b)
    decreases Height(a), 1, 0
  {
    if a.Arr? {
      if b.Arr? {
        r := CompareJsonArray(a.items, b.items);
      } else {
        r := -1;
      }
    } else if b.Arr? {
      r := 1;
    } else {
      r := CompareJsonRecords(a.members, b.members);
    }
  }

  /** `compareJsonArray`: a length check, then a `while` loop with early return. */
  method CompareJsonArray(a: seq<JsonValue>, b: seq<JsonValue>) returns (r: int)
    ensures r == CompareArray(a, b)
    decreases ItemsHeight(a), 4, 0
  {
    if |a| < |b| {
      return -1;
    }
    if |a| > |b| {
      return 1;
    }
    var len := |a|;
    var i := 0;
    while i < len
      invariant 0 <= i <= len
      invariant CompareItemsFrom(a, b, i) == CompareItemsFrom(a, b, 0)
    {
      var result := CompareJsonValue(a[i], b[i]);
      if result != 0 {
        return result;
      }
      i := i + 1;
    }
    return 0;
  }

  /** `compareJsonRecords`: the key lists through `compareJsonArray`, then a `while` loop over the keys. */
  method CompareJsonRecords(a: seq<Member>, b: seq<Member>) returns (r: int)
    ensures r == CompareRecords(a, b)
    decreases MembersHeight(a), 5, 0
  {
    var aKeys, bKeys := Keys(a), Keys(b);
    KeyArrayHeight(aKeys);
    CompareKeysAsArray(aKeys, bKeys);
    var result := CompareJsonArray(StrArray(aKeys), StrArray(bKeys));
    if result != 0 {
      return result;
    }
    var len := |aKeys|;
    var i := 0;
    while i < len
      invariant 0 <= i <= len
      invariant CompareMembersFrom(a, b, i) == CompareMembersFrom(a, b, 0)
    {
      var key := aKeys[i];
      var c := CompareJsonValue(Lookup(a, key), Lookup(b, key));
      if c != 0 {
        return c;
      }
      i := i + 1;
    }
    return 0;
  }
}
