/** JSON trees as the handler builds them and the printer walks them.

    An object is a `std::map<std::string, Var>`: it is modelled by its fields in iteration order,
    that is, strictly sorted by key. Characters stand for the bytes of the C++ strings. */
module JsonValue {
  import opened TextStream

  datatype Field<+T> = Field(key: string, value: T)

  /** `Int` is held as a C++ `int`, `Long` as an `Int64`. A float keeps its text. */
  datatype Scalar =
    | Null
    | Bool(b: bool)
    | Int(n: int)
    | Long(n: int)
    | Float(text: string)
    | Str(s: string)

  datatype JSON =
    | Leaf(scalar: Scalar)
    | Array(items: seq<JSON>)
    | Object(fields: seq<Field<JSON>>)

  const INT_MAX := 0x7FFF_FFFF
  const INT_MIN := -0x8000_0000
  const INT64_MAX := 0x7FFF_FFFF_FFFF_FFFF
  const INT64_MIN := -0x8000_0000_0000_0000

  // ---------------------------------------------------------------- key order

  /** The order of `std::string`: lexicographic by byte. */
  predicate Less(a: string, b: string) {
    if b == [] then false
    else if a == [] then true
    else a[0] < b[0] || (a[0] == b[0] && Less(a[1..], b[1..]))
  }

  lemma {:induction false} LessIrreflexive(a: string)
    ensures !Less(a, a)
  {
    if a != [] {
      LessIrreflexive(a[1..]);
    }
  }

  lemma {:induction false} LessTransitive(a: string, b: string, c: string)
    requires Less(a, b) && Less(b, c)
    ensures Less(a, c)
  {
    if a != [] && a[0] == b[0] && b[0] == c[0] {
      LessTransitive(a[1..], b[1..], c[1..]);
    }
  }

  lemma LessAsymmetric(a: string, b: string)
    requires Less(a, b)
    ensures !Less(b, a) && a != b
  {
    LessIrreflexive(a);
    if Less(b, a) {
      LessTransitive(a, b, a);
    }
  }

  lemma {:induction false} LessTotal(a: string, b: string)
    ensures a == b || Less(a, b) || Less(b, a)
  {
    if a != [] && b != [] && a[0] == b[0] {
      LessTotal(a[1..], b[1..]);
      assert a == [a[0]] + a[1..] && b == [b[0]] + b[1..];
    }
  }

  // ---------------------------------------------------------------- std::map

  ghost predicate Sorted<T>(fields: seq<Field<T>>) {
    forall i, j | 0 <= i < j < |fields| :: Less(fields[i].key, fields[j].key)
  }

  /** `_values[key] = value` */
  function Insert<T>(fields: seq<Field<T>>, key: string, value: T): seq<Field<T>> {
    if fields == [] then [Field(key, value)]
    else if key == fields[0].key then [Field(key, value)] + fields[1..]
    else if Less(key, fields[0].key) then [Field(key, value)] + fields
    else [fields[0]] + Insert(fields[1..], key, value)
  }

  /** `_values.find(key)` */
  function Get<T>(fields: seq<Field<T>>, key: string): Option<T> {
    if fields == [] then None
    else if fields[0].key == key then Some(fields[0].value)
    else Get(fields[1..], key)
  }

  /** `_values.erase(key)` */
  function Remove<T>(fields: seq<Field<T>>, key: string): seq<Field<T>> {
    if fields == [] then []
    else if fields[0].key == key then fields[1..]
    else [fields[0]] + Remove(fields[1..], key)
  }

  ghost predicate HasKey<T>(fields: seq<Field<T>>, key: string) {
    exists i | 0 <= i < |fields| :: fields[i].key == key
  }

  /** Inserting keeps the map sorted, adds at most the given key, and never drops one. */
  lemma {:induction false} InsertKeepsSorted<T>(fields: seq<Field<T>>, key: string, value: T)
    requires Sorted(fields)
    ensures Sorted(Insert(fields, key, value))
    ensures forall k :: HasKey(Insert(fields, key, value), k) <==> k == key || HasKey(fields, k)
  {
    var r := Insert(fields, key, value);
    if fields == [] {
      assert r[0].key == key;
    } else if key == fields[0].key {
      assert forall i | 0 <= i < |fields| :: r[i].key == fields[i].key;
    } else if Less(key, fields[0].key) {
      assert r == [Field(key, value)] + fields;
      assert r[0].key == key && forall i | 0 <= i < |fields| :: r[i + 1] == fields[i];
      forall k ensures HasKey(r, k) <==> k == key || HasKey(fields, k) {
        if HasKey(fields, k) {
          var i :| 0 <= i < |fields| && fields[i].key == k;
          assert r[i + 1].key == k;
        }
      }
      forall i | 0 <= i < |fields| ensures Less(key, fields[i].key) {
        if i > 0 {
          LessTransitive(key, fields[0].key, fields[i].key);
        }
      }
    } else {
      var tail := fields[1..];
      InsertKeepsSorted(tail, key, value);
      LessTotal(key, fields[0].key);
      var rest := Insert(tail, key, value);
      assert r == [fields[0]] + rest;
      forall j | 0 <= j < |rest| ensures Less(fields[0].key, rest[j].key) {
        assert HasKey(rest, rest[j].key);
        if rest[j].key != key {
          var i :| 0 <= i < |tail| && tail[i].key == rest[j].key;
          assert tail[i] == fields[i + 1];
        }
      }
      forall k ensures HasKey(r, k) <==> k == key || HasKey(fields, k) {
        assert HasKey(r, k) <==> k == fields[0].key || HasKey(rest, k) by {
          assert r[0] == fields[0] && forall i | 0 <= i < |rest| :: r[i + 1] == rest[i];
        }
        assert HasKey(fields, k) <==> k == fields[0].key || HasKey(tail, k) by {
          assert forall i | 0 <= i < |tail| :: fields[i + 1] == tail[i];
        }
      }
    }
  }

  /** A duplicate key overwrites; every other key keeps its value. */
  lemma {:induction false} GetAfterInsert<T>(fields: seq<Field<T>>, key: string, value: T, k: string)
    ensures Get(Insert(fields, key, value), k) == if k == key then Some(value) else Get(fields, k)
  {
    if fields != [] && key != fields[0].key && !Less(key, fields[0].key) {
      GetAfterInsert(fields[1..], key, value, k);
    }
  }

  /** Keys arriving in order are appended. */
  lemma {:induction false} InsertLast<T>(fields: seq<Field<T>>, key: string, value: T)
    requires forall i | 0 <= i < |fields| :: Less(fields[i].key, key)
    ensures Insert(fields, key, value) == fields + [Field(key, value)]
  {
    if fields != [] {
      assert Less(fields[0].key, key);
      LessAsymmetric(fields[0].key, key);
      InsertLast(fields[1..], key, value);
    }
  }

  // ---------------------------------------------------------------- decimal text

  predicate IsDigit(c: char) { '0' <= c <= '9' }

  function DigitChar(d: nat): char
    requires d < 10
  {
    '0' + d as char
  }

  function Digits(n: nat): string {
    if n < 10 then [DigitChar(n)] else Digits(n / 10) + [DigitChar(n % 10)]
  }

  /** `Var::convert<std::string>` of an integer */
  function IntText(n: int): string {
    if n < 0 then "-" + Digits(-n) else Digits(n)
  }

  function NatValue(s: string): nat
    requires forall c | c in s :: IsDigit(c)
  {
    if s == [] then 0
    else
      assert IsDigit(s[|s| - 1]);
      NatValue(s[..|s| - 1]) * 10 + (s[|s| - 1] - '0') as nat
  }

  /** The text of an integer token: an optional minus sign and digits without a leading zero. */
  ghost predicate IsIntText(s: string) {
    var d := if s != [] && s[0] == '-' then s[1..] else s;
    d != [] && (forall c | c in d :: IsDigit(c)) && (d[0] == '0' ==> |d| == 1)
  }

  /** `NumberParser::parse64` */
  function IntValue(s: string): int
    requires s != []
    requires forall i | 0 <= i < |s| :: IsDigit(s[i]) || (i == 0 && s[i] == '-')
  {
    if s[0] == '-' then 0 - NatValue(s[1..]) as int else NatValue(s)
  }

  /** `NumberParser::parse`, which stays within the limits of `int`. */
  function Saturated(n: int): int {
    if n > INT_MAX then INT_MAX else if n < INT_MIN then INT_MIN else n
  }

  /** Of the 32-bit numbers, the one nearest to `n`. */
  lemma SaturatedIsNearest(n: int, m: int)
    requires -2147483648 <= m <= 2147483647
    ensures -2147483648 <= Saturated(n) <= 2147483647
    ensures n <= m ==> Saturated(n) - n <= m - n && n <= Saturated(n)
    ensures m <= n ==> n - Saturated(n) <= n - m && Saturated(n) <= n
  {
  }

  lemma {:induction false} DigitsAreCanonical(n: nat)
    ensures Digits(n) != [] && forall c | c in Digits(n) :: IsDigit(c)
    ensures Digits(n)[0] == '0' ==> n == 0
    ensures NatValue(Digits(n)) == n
  {
    if n >= 10 {
      DigitsAreCanonical(n / 10);
      assert Digits(n)[..|Digits(n)| - 1] == Digits(n / 10);
    } else {
      assert [DigitChar(n)][..0] == [];
    }
  }

  lemma IntTextIsCanonical(n: int)
    ensures IsIntText(IntText(n))
    ensures IntValue(IntText(n)) == n
  {
    DigitsAreCanonical(if n < 0 then -n else n);
    var m := if n < 0 then -n else n;
    assert IntText(n) == if n < 0 then ['-'] + Digits(m) else Digits(m);
    assert forall c | c in Digits(m) :: IsDigit(c);
    assert IsDigit(Digits(m)[0]);
    if n < 0 {
      assert IntText(n)[1..] == Digits(m);
    }
  }
}
