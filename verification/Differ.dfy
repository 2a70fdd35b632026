/** The recursive comparison of manifests. A path is the sequence of its keys. */
module Differ {
  import opened Wrappers

  /** A dumped manifest value; a leaf is anything that is neither missing nor a dictionary. */
  datatype Value = Null | Leaf(text: string) | Dict(fields: map<string, Value>)

  type Path = seq<string>

  /** `dict.get(key)`: a missing key reads as `None`. */
  function Field(v: Value, key: string): Value
    requires v.Dict?
  {
    if key in v.fields then v.fields[key] else Null
  }

  /** The path leads through dictionaries on both sides to two values that differ and are not both dictionaries. */
  predicate Reported(desired: Value, current: Value, path: Path): (yes: bool)
    requires desired.Dict? && current.Dict?
    ensures yes ==> path != []
    decreases |path|
  {
    path != []
    && var d, c := Field(desired, path[0]), Field(current, path[0]);
       if d.Dict? && c.Dict? then Reported(d, c, path[1..])
       else |path| == 1 && d != c
  }

  /** `None` and absent are the same, at every depth. */
  function Norm(v: Value): (n: Value)
    ensures n.Dict? <==> v.Dict?
  {
    match v
    case Dict(fields) => Dict(map key | key in fields && fields[key] != Null :: Norm(fields[key]))
    case _ => v
  }

  ghost predicate Distinct(paths: seq<Path>) {
    forall i, j :: 0 <= i < j < |paths| ==> paths[i] != paths[j]
  }

  /** The paths of a list are the reported ones, below a prefix. */
  ghost predicate Lists(paths: seq<Path>, prefix: Path, desired: Value, current: Value, keys: set<string>)
    requires desired.Dict? && current.Dict?
  {
    && Distinct(paths)
    && (forall i :: 0 <= i < |paths| ==>
          && |prefix| < |paths[i]|
          && paths[i][..|prefix|] == prefix
          && paths[i][|prefix|] in keys
          && Reported(desired, current, paths[i][|prefix|..]))
    && (forall p :: Reported(desired, current, p) && p[0] in keys ==> prefix + p in paths)
  }

  /** `_find_changed_fields`; the keys come in any order. */
  method FindChangedFields(desired: Value, current: Value, prefix: Path) returns (changed: seq<Path>)
    requires desired.Dict? && current.Dict?
    ensures Lists(changed, prefix, desired, current, desired.fields.Keys + current.fields.Keys)
    decreases desired
  {
    hide Distinct, Reported, Lists;
    changed := [];
    var all := desired.fields.Keys + current.fields.Keys;
    var left := all;
    ListsNothing(prefix, desired, current);
    assert all - left == {};
    while left != {}
      invariant left <= all
      invariant Lists(changed, prefix, desired, current, all - left)
      decreases |left|
    {
      var key :| key in left;
      ghost var done := all - left;
      var d, c := Field(desired, key), Field(current, key);
      if d.Dict? && c.Dict? {
        var nested := FindChangedFields(d, c, prefix + [key]);
        ListsNested(changed, nested, prefix, desired, current, done, key);
        changed := changed + nested;
      } else {
        ListsHere(changed, prefix, desired, current, done, key);
        if d != c {
          changed := changed + [prefix + [key]];
        }
      }
      left := left - {key};
      assert all - left == done + {key};
    }
    assert all - left == all;
  }

  lemma ListsNothing(prefix: Path, desired: Value, current: Value)
    requires desired.Dict? && current.Dict?
    ensures Lists([], prefix, desired, current, {})
  {}

  lemma KeyOnly(desired: Value, current: Value, p: Path)
    requires desired.Dict? && current.Dict? && Reported(desired, current, p)
    requires !(Field(desired, p[0]).Dict? && Field(current, p[0]).Dict?)
    ensures p == [p[0]] && Field(desired, p[0]) != Field(current, p[0])
  {}

  lemma ListsHere(paths: seq<Path>, prefix: Path, desired: Value, current: Value, done: set<string>, key: string)
    requires desired.Dict? && current.Dict? && key !in done
    requires Lists(paths, prefix, desired, current, done)
    requires !(Field(desired, key).Dict? && Field(current, key).Dict?)
    ensures var more := if Field(desired, key) != Field(current, key) then paths + [prefix + [key]] else paths;
            Lists(more, prefix, desired, current, done + {key})
  {
    hide Reported;
    var more := if Field(desired, key) != Field(current, key) then paths + [prefix + [key]] else paths;
    if Field(desired, key) != Field(current, key) {
      assert (prefix + [key])[|prefix|..] == [key];
      assert Reported(desired, current, [key]) by { ReportedKey(desired, current, key); }
      assert more[|paths|] == prefix + [key];
    }
    forall p | Reported(desired, current, p) && p[0] in done + {key} ensures prefix + p in more {
      if p[0] == key {
        KeyOnly(desired, current, p);
      } else {
        assert prefix + p in paths;
      }
    }
  }

  lemma ReportedKey(desired: Value, current: Value, key: string)
    requires desired.Dict? && current.Dict?
    requires !(Field(desired, key).Dict? && Field(current, key).Dict?) && Field(desired, key) != Field(current, key)
    ensures Reported(desired, current, [key])
  {}

  lemma ReportedBelow(desired: Value, current: Value, p: Path)
    requires desired.Dict? && current.Dict? && p != []
    requires Field(desired, p[0]).Dict? && Field(current, p[0]).Dict?
    ensures Reported(desired, current, p) <==> Reported(Field(desired, p[0]), Field(current, p[0]), p[1..])
  {}

  lemma ListsNested(paths: seq<Path>, nested: seq<Path>, prefix: Path, desired: Value, current: Value,
                    done: set<string>, key: string)
    requires desired.Dict? && current.Dict? && key !in done
    requires Lists(paths, prefix, desired, current, done)
    requires var d, c := Field(desired, key), Field(current, key);
             d.Dict? && c.Dict? && Lists(nested, prefix + [key], d, c, d.fields.Keys + c.fields.Keys)
    ensures Lists(paths + nested, prefix, desired, current, done + {key})
  {
    hide Reported;
    var n, d, c := |prefix|, Field(desired, key), Field(current, key);
    var more := paths + nested;
    forall i | 0 <= i < |nested|
      ensures n < |nested[i]| && nested[i][..n] == prefix && nested[i][n] == key
              && Reported(desired, current, nested[i][n..]) {
      var x := nested[i];
      assert x[..n + 1] == prefix + [key];
      assert x[..n] == x[..n + 1][..n] && x[n] == x[..n + 1][n];
      assert x[n..][1..] == x[n + 1..];
      ReportedBelow(desired, current, x[n..]);
    }
    assert Distinct(more) by {
      forall i, j | 0 <= i < j < |more| ensures more[i] != more[j] {
        if i < |paths| <= j {
          assert paths[i][n] in done;
        }
      }
    }
    forall p | Reported(desired, current, p) && p[0] in done + {key} ensures prefix + p in more {
      if p[0] == key {
        ReportedBelow(desired, current, p);
        SomeKey(d, c, p[1..]);
        assert prefix + p == prefix + [key] + p[1..];
        assert prefix + [key] + p[1..] in nested;
      } else {
        assert prefix + p in paths;
      }
    }
  }

  /** A reported path starts at a key of one of the two sides, and is not empty. */
  lemma SomeKey(desired: Value, current: Value, p: Path)
    requires desired.Dict? && current.Dict? && Reported(desired, current, p)
    ensures p != [] && p[0] in desired.fields.Keys + current.fields.Keys
  {}

  datatype Action = Create | Update | NoChange

  /** `compute_diff`, on the two dumps. */
  method ComputeDiff(desired: Value, current: Option<Value>) returns (action: Action, changed: seq<Path>)
    requires desired.Dict? && (current.Some? ==> current.value.Dict?)
    ensures action == Create <==> current.None?
    ensures current.Some? ==>
              (forall p :: p in changed <==> Reported(desired, current.value, p)) && Distinct(changed)
    ensures action == NoChange <==> current.Some? && Norm(desired) == Norm(current.value)
  {
    hide Reported, Norm, Distinct;
    if current.None? {
      return Create, [];
    }
    changed := FindChangedFields(desired, current.value, []);
    ghost var c := current.value;
    forall p ensures p in changed <==> Reported(desired, c, p) {
      if p in changed {
        var i :| 0 <= i < |changed| && changed[i] == p;
        assert changed[i][0..] == p;
      }
      if Reported(desired, c, p) {
        SomeKey(desired, c, p);
        assert [] + p == p;
      }
    }
    NothingReportedIff(desired, c);
    if changed != [] {
      assert changed[0] in changed;
    }
    action := if changed != [] then Update else NoChange;
  }

  // ---- The reported paths ----

  /** No reported path extends another. */
  lemma {:induction false} PrefixFree(desired: Value, current: Value, p: Path, q: Path)
    requires desired.Dict? && current.Dict? && Reported(desired, current, p) && Reported(desired, current, q)
    requires p <= q
    ensures p == q
    decreases |p|
  {
    var d, c := Field(desired, p[0]), Field(current, p[0]);
    if d.Dict? && c.Dict? {
      PrefixFree(d, c, p[1..], q[1..]);
      assert p == [p[0]] + p[1..] && q == [q[0]] + q[1..];
    }
  }

  lemma NormField(v: Value, key: string)
    requires v.Dict?
    ensures Field(Norm(v), key) == Norm(Field(v, key))
  {}

  lemma SameFields(a: Value, b: Value)
    requires a.Dict? && b.Dict? && forall key: string :: Field(Norm(a), key) == Field(Norm(b), key)
    ensures Norm(a) == Norm(b)
  {
    var x, y := Norm(a).fields, Norm(b).fields;
    forall key ensures key in x <==> key in y {
      assert Field(Norm(a), key) == Field(Norm(b), key);
      NormNotNull(a, key);
      NormNotNull(b, key);
    }
    forall key | key in x ensures x[key] == y[key] {
      assert Field(Norm(a), key) == Field(Norm(b), key);
    }
    assert x == y;
  }

  lemma NormNotNull(v: Value, key: string)
    requires v.Dict?
    ensures key in Norm(v).fields <==> Field(Norm(v), key) != Null
  {}

  /** Something below a key is reported. */
  ghost predicate Touched(desired: Value, current: Value, key: string)
    requires desired.Dict? && current.Dict?
  {
    exists p :: Reported(desired, current, p) && p[0] == key
  }

  ghost predicate NothingReported(desired: Value, current: Value)
    requires desired.Dict? && current.Dict?
  {
    forall p :: !Reported(desired, current, p)
  }

  /** Nothing is reported exactly when the two sides are equal up to `None` and absent. */
  lemma {:induction false} NothingReportedIff(desired: Value, current: Value)
    requires desired.Dict? && current.Dict?
    ensures NothingReported(desired, current) <==> Norm(desired) == Norm(current)
    decreases desired
  {
    hide Norm;
    if NothingReported(desired, current) {
      forall key: string ensures Field(Norm(desired), key) == Field(Norm(current), key) {
        FieldTouchedIff(desired, current, key);
        NormField(desired, key);
        NormField(current, key);
      }
      SameFields(desired, current);
    } else {
      var p :| Reported(desired, current, p);
      assert Touched(desired, current, p[0]);
      FieldTouchedIff(desired, current, p[0]);
      NormField(desired, p[0]);
      NormField(current, p[0]);
      assert Field(Norm(desired), p[0]) != Field(Norm(current), p[0]);
    }
  }

  lemma {:induction false} FieldTouchedIff(desired: Value, current: Value, key: string)
    requires desired.Dict? && current.Dict?
    ensures Norm(Field(desired, key)) != Norm(Field(current, key)) <==> Touched(desired, current, key)
    decreases desired, 0
  {
    hide Norm, Reported;
    var d, c := Field(desired, key), Field(current, key);
    if d.Dict? && c.Dict? {
      NothingReportedIff(d, c);
      forall p | Reported(desired, current, p) && p[0] == key ensures Reported(d, c, p[1..]) {
        ReportedBelow(desired, current, p);
      }
      if p :| Reported(d, c, p) {
        assert ([key] + p)[1..] == p;
        ReportedBelow(desired, current, [key] + p);
      }
    } else {
      NormScalar(d, c);
      if d != c {
        ReportedKey(desired, current, key);
        assert [key][0] == key;
      } else {
        forall p | Reported(desired, current, p) ensures p[0] != key {
          if p[0] == key {
            KeyOnly(desired, current, p);
          }
        }
      }
    }
  }

  lemma NormScalar(d: Value, c: Value)
    requires !(d.Dict? && c.Dict?)
    ensures Norm(d) == Norm(c) <==> d == c
  {}

  // ---- Patching ----

  /** The value at the end of a path, where a missing key reads as `None`. */
  function At(v: Value, path: Path): Value
    decreases |path|
  {
    if path == [] then v
    else if v.Dict? then At(Field(v, path[0]), path[1..])
    else Null
  }

  /** Write a value at the end of a path that leads through dictionaries. */
  function Write(v: Value, path: Path, x: Value): (w: Value)
    requires v.Dict?
    ensures w.Dict?
    decreases |path|
  {
    if path == [] then v
    else if |path| == 1 then Dict(v.fields[path[0] := x])
    else if Field(v, path[0]).Dict? then Dict(v.fields[path[0] := Write(Field(v, path[0]), path[1..], x)])
    else v
  }

  lemma {:induction false} SelfUnreported(v: Value, p: Path)
    requires v.Dict?
    ensures !Reported(v, v, p)
    decreases |p|
  {
    if p != [] && Field(v, p[0]).Dict? {
      SelfUnreported(Field(v, p[0]), p[1..]);
    }
  }

  /** Writing the desired value at a reported path settles that path and no other. */
  lemma {:induction false} WriteSettles(desired: Value, current: Value, p: Path, q: Path)
    requires desired.Dict? && current.Dict? && Reported(desired, current, p)
    ensures Reported(desired, Write(current, p, At(desired, p)), q) <==> Reported(desired, current, q) && q != p
    decreases |p|
  {
    var d, c := Field(desired, p[0]), Field(current, p[0]);
    var after := Write(current, p, At(desired, p));
    if d.Dict? && c.Dict? {
      assert |p| > 1;
      assert At(desired, p) == At(d, p[1..]);
      assert Field(after, p[0]) == Write(c, p[1..], At(d, p[1..]));
      if q != [] && q[0] == p[0] {
        WriteSettles(d, c, p[1..], q[1..]);
        ReportedBelow(desired, after, q);
        ReportedBelow(desired, current, q);
        assert q != p <==> q[1..] != p[1..] by {
          assert p == [p[0]] + p[1..] && q == [q[0]] + q[1..];
        }
      }
    } else {
      KeyOnly(desired, current, p);
      assert p[1..] == [];
      assert At(desired, p) == At(d, p[1..]) == d;
      assert Field(after, p[0]) == d;
      if q != [] && q[0] == p[0] {
        if d.Dict? {
          SelfUnreported(d, q[1..]);
        }
        if Reported(desired, current, q) {
          KeyOnly(desired, current, q);
        }
      }
    }
  }

  /** Write the desired value at each path in turn. */
  function Patched(current: Value, paths: seq<Path>, desired: Value): (v: Value)
    requires current.Dict?
    ensures v.Dict?
  {
    if paths == [] then current
    else
      var before := Patched(current, paths[..|paths| - 1], desired);
      Write(before, paths[|paths| - 1], At(desired, paths[|paths| - 1]))
  }

  lemma {:induction false} PatchSettles(desired: Value, current: Value, paths: seq<Path>, q: Path)
    requires desired.Dict? && current.Dict? && Distinct(paths)
    requires forall p :: p in paths ==> Reported(desired, current, p)
    ensures Reported(desired, Patched(current, paths, desired), q) <==> Reported(desired, current, q) && q !in paths
  {
    hide Reported, Write;
    if paths != [] {
      var n := |paths| - 1;
      var p := paths[n];
      assert forall x :: x in paths[..n] ==> x in paths;
      PatchSettles(desired, current, paths[..n], q);
      PatchSettles(desired, current, paths[..n], p);
      assert p in paths;
      assert p !in paths[..n];
      WriteSettles(desired, Patched(current, paths[..n], desired), p, q);
      assert q in paths <==> q in paths[..n] || q == p by {
        assert paths == paths[..n] + [p];
      }
    }
  }

  ghost predicate Covers(paths: seq<Path>, desired: Value, current: Value)
    requires desired.Dict? && current.Dict?
  {
    forall p :: Reported(desired, current, p) ==> p in paths
  }

  /** Writing the desired value at every reported path, in whatever order they were found, makes the current tree equal to
      the desired one up to `None` and absent; and writing at fewer does not. */
  lemma PatchIsExact(desired: Value, current: Value, paths: seq<Path>)
    requires desired.Dict? && current.Dict? && Distinct(paths)
    requires forall p :: p in paths ==> Reported(desired, current, p)
    ensures Norm(Patched(current, paths, desired)) == Norm(desired) <==> Covers(paths, desired, current)
  {
    hide Norm, Distinct;
    var after := Patched(current, paths, desired);
    forall q ensures Reported(desired, after, q) <==> Reported(desired, current, q) && q !in paths {
      PatchSettles(desired, current, paths, q);
    }
    NothingReportedIff(desired, after);
    assert NothingReported(desired, after) <==> Covers(paths, desired, current);
  }

  /** Diff, then patch. */
  method DiffAndPatch(desired: Value, current: Value) returns (changed: seq<Path>, patched: Value)
    requires desired.Dict? && current.Dict?
    ensures patched == Patched(current, changed, desired)
    ensures Norm(patched) == Norm(desired)
  {
    hide Reported, Norm, Distinct;
    var action;
    action, changed := ComputeDiff(desired, Some(current));
    PatchIsExact(desired, current, changed);
    patched := Patched(current, changed, desired);
  }
}
