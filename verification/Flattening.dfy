/** flatten_request_json of event_type.py: nested objects become one level of prefixed lower-case keys. */
module Flattening {
  import opened Facts

  /** A JSON value that is not a dict. Other stands for a number or a list by its truth value and its str(). */
  datatype Value = Null | Bool(b: bool) | Str(s: string) | Other(truthy: bool, text: string)

  datatype Json = Leaf(value: Value) | Obj(fields: seq<Field>)

  /** One entry of a dict, in insertion order. */
  datatype Field = Field(key: string, value: Json)

  type Flat = map<string, Json>

  // ----- keys

  function LowerChar(c: char): char {
    if 'A' <= c <= 'Z' then (c as int - 'A' as int + 'a' as int) as char else c
  }

  /** Python's str.lower() as far as ASCII letters go. */
  function Lower(s: string): (r: string)
    ensures |r| == |s| && forall i :: 0 <= i < |s| ==> r[i] == LowerChar(s[i])
  {
    if s == "" then "" else [LowerChar(s[0])] + Lower(s[1..])
  }

  /** What flattening needs of str.lower(), which it takes as a parameter: lower-case text stays as it is. */
  ghost predicate Idempotent(lower: string -> string) {
    forall s: string :: lower(lower(s)) == lower(s)
  }

  lemma {:induction false} LowerTwice(s: string)
    ensures Lower(Lower(s)) == Lower(s)
  {
    if s != "" {
      LowerTwice(s[1..]);
      assert Lower(s)[1..] == Lower(s[1..]);
    }
  }

  /** Lower-casing ASCII letters is such a function, so the requirement can be met. */
  lemma LowerIsIdempotent()
    ensures Idempotent(Lower)
  {
    forall s: string ensures Lower(Lower(s)) == Lower(s) {
      LowerTwice(s);
    }
  }

  function LeafKey(lower: string -> string, prefix: string, key: string): string {
    lower(if prefix != "" then prefix + "_" + key else key)
  }

  // ----- the meaning: leaves in depth-first order, the last writer wins

  function LeavesOfField(lower: string -> string, field: Field, prefix: string,
                         ignored: seq<string>): seq<(string, Json)>
  {
    if field.key in ignored then []
    else if field.value.Obj? then Leaves(lower, field.value.fields, field.key, [])
    else [(LeafKey(lower, prefix, field.key), field.value)]
  }

  function Leaves(lower: string -> string, fields: seq<Field>, prefix: string,
                  ignored: seq<string>): seq<(string, Json)>
  {
    if fields == [] then []
    else LeavesOfField(lower, fields[0], prefix, ignored) + Leaves(lower, fields[1..], prefix, ignored)
  }

  function LastWins(leaves: seq<(string, Json)>): Flat {
    if leaves == [] then map[] else
      var last := leaves[|leaves| - 1];
      LastWins(leaves[..|leaves| - 1])[last.0 := last.1]
  }

  lemma {:induction false} LastWinsConcat(a: seq<(string, Json)>, b: seq<(string, Json)>)
    ensures LastWins(a + b) == LastWins(a) + LastWins(b)
  {
    if b == [] {
      assert a + b == a;
    } else {
      var n := |b| - 1;
      LastWinsConcat(a, b[..n]);
      assert (a + b)[..|a| + n] == a + b[..n];
    }
  }

  lemma {:induction false} LeavesConcat(lower: string -> string, a: seq<Field>, b: seq<Field>, prefix: string,
                                        ignored: seq<string>)
    ensures Leaves(lower, a + b, prefix, ignored) ==
            Leaves(lower, a, prefix, ignored) + Leaves(lower, b, prefix, ignored)
    decreases |a|
  {
    if a == [] {
      assert a + b == b;
    } else {
      LeavesConcat(lower, a[1..], b, prefix, ignored);
      assert (a + b)[1..] == a[1..] + b && (a + b)[0] == a[0];
      Regroup(LeavesOfField(lower, a[0], prefix, ignored), Leaves(lower, a[1..], prefix, ignored),
              Leaves(lower, b, prefix, ignored));
    }
  }

  /** The loop over the dict, filling out. It recurses into nested dicts with their key as the prefix. */
  method FlattenRequestJson(lower: string -> string, requestJson: seq<Field>, keyPrefix: string,
                            ignoreKeys: seq<string>) returns (out: Flat)
    ensures out == LastWins(Leaves(lower, requestJson, keyPrefix, ignoreKeys))
  {
    out := map[];
    var i := 0;
    while i < |requestJson|
      invariant 0 <= i <= |requestJson|
      invariant out == LastWins(Leaves(lower, requestJson[..i], keyPrefix, ignoreKeys))
    {
      var field := requestJson[i];
      assert requestJson[..i + 1] == requestJson[..i] + [field];
      LeavesConcat(lower, requestJson[..i], [field], keyPrefix, ignoreKeys);
      LastWinsConcat(Leaves(lower, requestJson[..i], keyPrefix, ignoreKeys),
                     Leaves(lower, [field], keyPrefix, ignoreKeys));
      LeavesOne(lower, field, keyPrefix, ignoreKeys);
      if field.key !in ignoreKeys {
        if field.value.Obj? {
          var inner := FlattenRequestJson(lower, field.value.fields, field.key, []);
          out := out + inner;
        } else {
          var key := if keyPrefix != "" then keyPrefix + "_" + field.key else field.key;
          out := out[lower(key) := field.value];
        }
      }
      i := i + 1;
    }
    assert requestJson[..i] == requestJson;
  }

  lemma LeavesOne(lower: string -> string, field: Field, prefix: string, ignored: seq<string>)
    ensures Leaves(lower, [field], prefix, ignored) == LeavesOfField(lower, field, prefix, ignored)
    ensures !field.value.Obj? && field.key !in ignored ==>
              LastWins(Leaves(lower, [field], prefix, ignored)) == map[LeafKey(lower, prefix, field.key) := field.value]
  {
    assert [field][1..] == [];
    assert Leaves(lower, [field], prefix, ignored) == LeavesOfField(lower, field, prefix, ignored);
    if !field.value.Obj? && field.key !in ignored {
      assert [(LeafKey(lower, prefix, field.key), field.value)][..0] == [];
    }
  }

  /**
   * A field in an object gets the key of that object, and no other, in front of its own; ignored keys do not
   * matter below the top.
   */
  lemma NestedKeys(lower: string -> string, k: string, j: string, i: string, v: Json, prefix: string,
                   ignored: seq<string>)
    requires k != "" && j != "" && k !in ignored && !v.Obj?
    ensures Leaves(lower, [Field(k, Obj([Field(j, v)]))], prefix, ignored) == [(lower(k + "_" + j), v)]
    ensures Leaves(lower, [Field(k, Obj([Field(j, Obj([Field(i, v)]))]))], prefix, ignored) == [(lower(j + "_" + i), v)]
  {
    var inner := [Field(j, v)];
    LeavesOne(lower, Field(k, Obj(inner)), prefix, ignored);
    LeavesOne(lower, Field(j, v), k, []);
    var deeper := [Field(j, Obj([Field(i, v)]))];
    LeavesOne(lower, Field(k, Obj(deeper)), prefix, ignored);
    LeavesOne(lower, Field(j, Obj([Field(i, v)])), k, []);
    LeavesOne(lower, Field(i, v), j, []);
  }

  /** A field at the top is left out when its key is ignored, and otherwise keyed by its own name. */
  lemma TopKeys(lower: string -> string, j: string, v: Json, ignored: seq<string>)
    ensures j in ignored ==> Leaves(lower, [Field(j, v)], "", ignored) == []
    ensures j !in ignored && !v.Obj? ==> Leaves(lower, [Field(j, v)], "", ignored) == [(lower(j), v)]
  {
    LeavesOne(lower, Field(j, v), "", ignored);
  }

  // ----- what the result is

  lemma {:induction false} LeavesAreFlat(lower: string -> string, fields: seq<Field>, prefix: string,
                                         ignored: seq<string>)
    requires Idempotent(lower)
    ensures forall l :: l in Leaves(lower, fields, prefix, ignored) ==> !l.1.Obj? && lower(l.0) == l.0
  {
    if fields != [] {
      if fields[0].value.Obj? {
        LeavesAreFlat(lower, fields[0].value.fields, fields[0].key, []);
      }
      assert lower(LeafKey(lower, prefix, fields[0].key)) == LeafKey(lower, prefix, fields[0].key);
      LeavesAreFlat(lower, fields[1..], prefix, ignored);
    }
  }

  predicate HasLeaf(leaves: seq<(string, Json)>, key: string) {
    exists i :: 0 <= i < |leaves| && leaves[i].0 == key
  }

  lemma HasLeafSplit(leaves: seq<(string, Json)>, key: string)
    requires leaves != []
    ensures HasLeaf(leaves, key) <==> leaves[|leaves| - 1].0 == key || HasLeaf(leaves[..|leaves| - 1], key)
  {
    var n := |leaves| - 1;
    if i :| 0 <= i < n && leaves[i].0 == key {
      assert leaves[..n][i].0 == key;
    }
  }

  /** The keys of the flattened dict are exactly the leaf keys. */
  lemma {:induction false} KeysAreLeafKeys(leaves: seq<(string, Json)>)
    ensures forall k :: k in LastWins(leaves) <==> HasLeaf(leaves, k)
  {
    if leaves != [] {
      KeysAreLeafKeys(leaves[..|leaves| - 1]);
      forall k ensures k in LastWins(leaves) <==> HasLeaf(leaves, k) {
        HasLeafSplit(leaves, k);
      }
    }
  }

  /** A leaf no later leaf collides with is what the flattened dict holds under its key. */
  lemma {:induction false} LastLeafStays(leaves: seq<(string, Json)>, i: nat)
    requires i < |leaves| && forall j :: i < j < |leaves| ==> leaves[j].0 != leaves[i].0
    ensures leaves[i].0 in LastWins(leaves) && LastWins(leaves)[leaves[i].0] == leaves[i].1
  {
    var n := |leaves| - 1;
    if i < n {
      assert forall j :: i < j < n ==> leaves[..n][j] == leaves[j];
      LastLeafStays(leaves[..n], i);
    }
  }

  predicate IsFlat(lower: string -> string, dict: Flat) {
    forall k :: k in dict ==> !dict[k].Obj? && lower(k) == k
  }

  /** The flattened dict holds no dict, and all its keys are lower-case already. */
  lemma FlatHasNoDicts(lower: string -> string, fields: seq<Field>, prefix: string, ignored: seq<string>)
    requires Idempotent(lower)
    ensures IsFlat(lower, LastWins(Leaves(lower, fields, prefix, ignored)))
  {
    LeavesAreFlat(lower, fields, prefix, ignored);
    LastWinsHolds(Leaves(lower, fields, prefix, ignored));
  }

  lemma {:induction false} LastWinsHolds(leaves: seq<(string, Json)>)
    ensures forall k :: k in LastWins(leaves) ==> (k, LastWins(leaves)[k]) in leaves
  {
    if leaves != [] {
      LastWinsHolds(leaves[..|leaves| - 1]);
    }
  }

  /** The fields list the entries of a dict, in some order. */
  ghost predicate Lists(fields: seq<Field>, dict: Flat) {
    && (forall k :: k in dict ==> Field(k, dict[k]) in fields)
    && (forall f :: f in fields ==> f.key in dict && dict[f.key] == f.value)
  }

  /** Flattening a flattened dict again, without prefix and ignored keys, gives it back. */
  lemma FlattenTwice(lower: string -> string, fields: seq<Field>, prefix: string, ignored: seq<string>,
                     again: seq<Field>)
    requires Idempotent(lower) && Lists(again, LastWins(Leaves(lower, fields, prefix, ignored)))
    ensures LastWins(Leaves(lower, again, "", [])) == LastWins(Leaves(lower, fields, prefix, ignored))
  {
    FlatHasNoDicts(lower, fields, prefix, ignored);
    FlattenFlat(lower, again, LastWins(Leaves(lower, fields, prefix, ignored)));
  }

  lemma {:induction false} FlattenFlat(lower: string -> string, fields: seq<Field>, out: Flat)
    requires Lists(fields, out) && IsFlat(lower, out)
    ensures LastWins(Leaves(lower, fields, "", [])) == out
  {
    forall f | f in fields ensures !f.value.Obj? && lower(f.key) == f.key {
      assert f.key in out && out[f.key] == f.value;
    }
    LeavesOfFlat(lower, fields);
    SameEntries(fields, out, Leaves(lower, fields, "", []));
  }

  lemma {:induction false} SameEntries(fields: seq<Field>, out: Flat, leaves: seq<(string, Json)>)
    requires Lists(fields, out) && |leaves| == |fields|
    requires forall i :: 0 <= i < |fields| ==> leaves[i] == (fields[i].key, fields[i].value)
    ensures LastWins(leaves) == out
  {
    LastWinsHolds(leaves);
    KeysAreLeafKeys(leaves);
    forall k | k in LastWins(leaves) ensures k in out && LastWins(leaves)[k] == out[k] {
      var i :| 0 <= i < |leaves| && leaves[i] == (k, LastWins(leaves)[k]);
      assert fields[i] in fields;
    }
    forall k | k in out ensures k in LastWins(leaves) {
      var i :| 0 <= i < |fields| && fields[i] == Field(k, out[k]);
      assert leaves[i].0 == k;
    }
  }

  lemma {:induction false} LeavesOfFlat(lower: string -> string, fields: seq<Field>)
    requires forall f :: f in fields ==> !f.value.Obj? && lower(f.key) == f.key
    ensures |Leaves(lower, fields, "", [])| == |fields|
    ensures forall i :: 0 <= i < |fields| ==> Leaves(lower, fields, "", [])[i] == (fields[i].key, fields[i].value)
  {
    if fields != [] {
      assert fields[0] in fields;
      LeavesOfFlat(lower, fields[1..]);
    }
  }

  predicate DistinctKeys(leaves: seq<(string, Json)>) {
    forall i, j :: 0 <= i < j < |leaves| ==> leaves[i].0 != leaves[j].0
  }

  /** Flattening loses no leaf exactly when no two leaves end up under the same key. */
  lemma {:induction false} NoLeafLostIff(leaves: seq<(string, Json)>)
    ensures |LastWins(leaves)| <= |leaves|
    ensures |LastWins(leaves)| == |leaves| <==> DistinctKeys(leaves)
  {
    if leaves != [] {
      var n := |leaves| - 1;
      var front := leaves[..n];
      NoLeafLostIff(front);
      KeysAreLeafKeys(front);
      var key := leaves[n].0;
      if key in LastWins(front) {
        assert LastWins(leaves).Keys == LastWins(front).Keys;
        assert |LastWins(leaves)| == |LastWins(leaves).Keys| == |LastWins(front).Keys| == |LastWins(front)|;
        var i :| 0 <= i < n && front[i].0 == key;
        assert leaves[i].0 == leaves[n].0;
      } else {
        assert forall i :: 0 <= i < n ==> front[i].0 == leaves[i].0 && leaves[i].0 != key;
        assert DistinctKeys(front) <==> DistinctKeys(leaves);
      }
    }
  }
}
