// apps/fbschema/utils.py: the tracked-field list of an entity, the FQL query
// built from it, and the check that a response record carries exactly the
// tracked fields.

module FqlUtils {
  import opened Base
  import opened Values
  import opened Registry

  /** `get_fieldlist_from_model`: declared field names minus `ignore_fields`. */
  function GetFieldlistFromModel(e: Entity): seq<string>
  {
    Names(TrackedFields(DeclaredFields(e)))
  }

  /** `get_fields_from_model`: the field list joined with `", "`. */
  function GetFieldsFromModel(e: Entity): string
  {
    Join(GetFieldlistFromModel(e), ", ")
  }

  /** `get_fql_from_model`: the clause is appended verbatim. */
  function GetFqlFromModel(e: Entity, clause: string): string
  {
    "SELECT " + GetFieldsFromModel(e) + " FROM " + FqlName(e) + " " + clause
  }

  /** One loop of `compare_keys_with_fields`: false at the first element of
      `xs` missing from `ys`. */
  function EveryIn(xs: seq<string>, ys: seq<string>): (r: bool)
    ensures r <==> forall x :: x in xs ==> x in ys
  {
    if xs == [] then true
    else if xs[0] !in ys then false
    else EveryIn(xs[1..], ys)
  }

  /** Both loops of `compare_keys_with_fields` over a given field list. */
  function SameKeys(keys: seq<string>, fields: seq<string>): (r: bool)
    ensures r <==> (set k | k in keys) == (set f | f in fields)
  {
    var r := EveryIn(keys, fields) && EveryIn(fields, keys);
    assert r <==> (set k | k in keys) == (set f | f in fields) by {
      var a, b := set k | k in keys, set f | f in fields;
      assert forall x :: x in a <==> x in keys;
      assert forall x :: x in b <==> x in fields;
      if r { assert a == b; }
    }
    r
  }

  /** `compare_keys_with_fields`: every key is a tracked field, then every
      tracked field is a key; that is, the two sets coincide. */
  function CompareKeysWithFields(e: Entity, keys: seq<string>): (r: bool)
    ensures r <==> (set k | k in keys) == (set f | f in GetFieldlistFromModel(e))
  {
    SameKeys(keys, GetFieldlistFromModel(e))
  }

  /** The partner of `", ".join`: Python's `s.split(", ")`. */
  function SplitFields(s: string): (r: seq<string>)
    ensures |r| > 0
  {
    if s == [] then [""]
    else if |s| >= 2 && s[..2] == ", " then [""] + SplitFields(s[2..])
    else var rest := SplitFields(s[1..]); [[s[0]] + rest[0]] + rest[1..]
  }

  predicate CommaFree(names: seq<string>)
  {
    forall i :: 0 <= i < |names| ==> ',' !in names[i]
  }

  function CountComma(s: string): nat
  {
    if s == [] then 0 else (if s[0] == ',' then 1 else 0) + CountComma(s[1..])
  }

  lemma {:induction false} SplitPrefix(x: string, t: string)
    requires ',' !in x
    ensures SplitFields(x + t) == [x + SplitFields(t)[0]] + SplitFields(t)[1..]
  {
    if x != [] {
      var s := x + t;
      assert s[1..] == x[1..] + t;
      assert s[0] == x[0] && x[0] != ',' by { assert x[0] in x; }
      assert |s| >= 2 ==> s[..2][0] == x[0];
      SplitPrefix(x[1..], t);
      var st := SplitFields(t);
      var rest := SplitFields(s[1..]);
      assert rest == [x[1..] + st[0]] + st[1..];
      assert rest[0] == x[1..] + st[0] && rest[1..] == st[1..];
      assert SplitFields(s) == [[s[0]] + rest[0]] + rest[1..];
      assert [x[0]] + (x[1..] + st[0]) == x + st[0];
    } else {
      var st := SplitFields(t);
      assert x + t == t && x + st[0] == st[0];
      assert [st[0]] + st[1..] == st;
    }
  }

  /** Splitting the fields segment of a query gives back the field list. */
  lemma {:induction false} SplitJoin(xs: seq<string>)
    requires |xs| > 0 && CommaFree(xs)
    ensures SplitFields(Join(xs, ", ")) == xs
  {
    if |xs| == 1 {
      SplitPrefix(xs[0], "");
      assert xs[0] + "" == xs[0];
    } else {
      var j := Join(xs[1..], ", ");
      SplitJoin(xs[1..]);
      assert ", " + j == ", " + j;
      assert (", " + j)[..2] == ", " && (", " + j)[2..] == j;
      var tail := SplitFields(", " + j);
      assert tail == [""] + xs[1..];
      assert tail[0] == "" && tail[1..] == xs[1..];
      SplitPrefix(xs[0], ", " + j);
      assert Join(xs, ", ") == xs[0] + (", " + j);
      assert xs[0] + "" == xs[0];
      assert [xs[0]] + xs[1..] == xs;
    }
  }

  lemma {:induction false} CountCommaAppend(a: string, b: string)
    ensures CountComma(a + b) == CountComma(a) + CountComma(b)
  {
    if a != [] {
      assert (a + b)[1..] == a[1..] + b;
      assert (a + b)[0] == a[0];
      CountCommaAppend(a[1..], b);
    } else {
      assert a + b == b;
    }
  }

  /** n comma-free names joined give n - 1 separators; one name gives itself. */
  lemma {:induction false} JoinSeparators(xs: seq<string>)
    requires |xs| > 0 && CommaFree(xs)
    ensures CountComma(Join(xs, ", ")) == |xs| - 1
    ensures |xs| == 1 ==> Join(xs, ", ") == xs[0]
  {
    if |xs| == 1 {
      assert CountComma(xs[0]) == 0 by { NoCommaCount(xs[0]); }
    } else {
      JoinSeparators(xs[1..]);
      NoCommaCount(xs[0]);
      CountCommaAppend(xs[0], ", ");
      CountCommaAppend(xs[0] + ", ", Join(xs[1..], ", "));
      assert CountComma(", ") == 1;
    }
  }

  lemma {:induction false} NoCommaCount(x: string)
    requires ',' !in x
    ensures CountComma(x) == 0
  {
    if x != [] {
      assert x[0] != ',';
      NoCommaCount(x[1..]);
    }
  }

  /** The field list keeps the declaration order, drops exactly the ignored
      names, so it names neither `id` nor `user`. */
  lemma {:induction false} FieldlistIsFilteredDeclaration(fields: seq<FieldSpec>)
    ensures IsSubsequence(Names(TrackedFields(fields)), Names(fields))
    ensures forall x :: x in Names(TrackedFields(fields)) <==> x in Names(fields) && x !in IgnoreFields
    ensures "id" !in Names(TrackedFields(fields)) && "user" !in Names(TrackedFields(fields))
  {
    if fields != [] {
      FieldlistIsFilteredDeclaration(fields[1..]);
      var a := Names(TrackedFields(fields));
      var b := Names(fields);
      assert b == [fields[0].name] + Names(fields[1..]);
      if fields[0].name in IgnoreFields {
        assert a == Names(TrackedFields(fields[1..]));
        if a != [] {
          assert a[0] in a;
          assert a[0] != b[0];
        }
      } else {
        assert TrackedFields(fields) == [fields[0]] + TrackedFields(fields[1..]);
        assert a == [fields[0].name] + Names(TrackedFields(fields[1..]));
      }
    }
  }

  /** A query assembled from a comma-free, non-empty field list starts with
      `SELECT `, ends with the clause as given, and its fields segment splits
      back into the list. */
  lemma QueryShape(names: seq<string>, table: string, clause: string)
    requires |names| > 0 && CommaFree(names)
    ensures var fields := Join(names, ", ");
      var q := "SELECT " + fields + " FROM " + table + " " + clause;
      "SELECT " + fields + " FROM " <= q && |clause| <= |q| && q[|q| - |clause|..] == clause
      && SplitFields(fields) == names
  {
    var fields := Join(names, ", ");
    var head := "SELECT " + fields + " FROM " + table + " ";
    assert "SELECT " + fields + " FROM " + table + " " + clause == head + clause;
    assert (head + clause)[|head|..] == clause;
    SplitJoin(names);
  }
}
