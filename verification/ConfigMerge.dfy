/** The layered configuration merge (_bmad/scripts/resolve_config.py). A scalar is kept as
    its text; a table is a map, so the order of its keys is not represented. */
module ConfigMerge {
  import opened Prelude

  datatype Value = Scalar(text: string) | List(items: seq<Value>) | Table(entries: map<string, Value>)

  const KEYED_FIELDS := ["code", "id"]

  /* ---------- arrays ---------- */

  predicate HasKey(item: Value, key: string) {
    item.Table? && key in item.entries
  }

  predicate AllKeyed(items: seq<Value>, key: string) {
    forall i :: 0 <= i < |items| ==> HasKey(items[i], key)
  }

  function DetectKeyedField(items: seq<Value>): Option<string> {
    if items == [] then None
    else if AllKeyed(items, KEYED_FIELDS[0]) then Some(KEYED_FIELDS[0])
    else if AllKeyed(items, KEYED_FIELDS[1]) then Some(KEYED_FIELDS[1])
    else None
  }

  datatype Merge = Merge(result: seq<Value>, index: map<Value, nat>)

  function AddBase(m: Merge, item: Value, key: string): Merge {
    if !item.Table? then m
    else Merge(m.result + [item], if HasKey(item, key) then m.index[item.entries[key] := |m.result|] else m.index)
  }

  function AddOverride(m: Merge, item: Value, key: string): Merge {
    if HasKey(item, key) && item.entries[key] in m.index && m.index[item.entries[key]] < |m.result| then
      Merge(m.result[m.index[item.entries[key]] := item], m.index)
    else
      Merge(m.result + [item], if HasKey(item, key) then m.index[item.entries[key] := |m.result|] else m.index)
  }

  function FoldBase(base: seq<Value>, key: string): Merge {
    if base == [] then Merge([], map[]) else AddBase(FoldBase(base[..|base| - 1], key), base[|base| - 1], key)
  }

  function FoldOverride(base: seq<Value>, over: seq<Value>, key: string): Merge {
    if over == [] then FoldBase(base, key)
    else AddOverride(FoldOverride(base, over[..|over| - 1], key), over[|over| - 1], key)
  }

  function MergedArrays(base: seq<Value>, over: seq<Value>): seq<Value> {
    match DetectKeyedField(base + over)
    case Some(key) => FoldOverride(base, over, key).result
    case None => base + over
  }

  method MergeByKey(base: seq<Value>, over: seq<Value>, key: string) returns (result: seq<Value>)
    ensures result == FoldOverride(base, over, key).result
  {
    result := [];
    var index: map<Value, nat> := map[];
    for i := 0 to |base|
      invariant Merge(result, index) == FoldBase(base[..i], key)
      invariant forall k :: k in index ==> index[k] < |result|
    {
      assert base[..i + 1][..|base[..i + 1]| - 1] == base[..i];
      var item := base[i];
      if !item.Table? { continue; }
      if key in item.entries { index := index[item.entries[key] := |result|]; }
      result := result + [item];
    }
    assert base[..|base|] == base;
    for i := 0 to |over|
      invariant Merge(result, index) == FoldOverride(base, over[..i], key)
      invariant forall k :: k in index ==> index[k] < |result|
    {
      assert over[..i + 1][..|over[..i + 1]| - 1] == over[..i];
      var item := over[i];
      if !item.Table? {
        result := result + [item];
        continue;
      }
      if key in item.entries && item.entries[key] in index {
        result := result[index[item.entries[key]] := item];
      } else {
        if key in item.entries { index := index[item.entries[key] := |result|]; }
        result := result + [item];
      }
    }
    assert over[..|over|] == over;
  }

  /* ---------- what a keyed merge yields ---------- */

  function KeysOf(items: seq<Value>, key: string): (r: seq<Value>)
    requires AllKeyed(items, key)
  {
    seq(|items|, i requires 0 <= i < |items| => items[i].entries[key])
  }

  // The last item carrying a key.
  function LastWith(items: seq<Value>, key: string, k: Value): Option<Value>
    requires AllKeyed(items, key)
  {
    if items == [] then None
    else if items[|items| - 1].entries[key] == k then Some(items[|items| - 1])
    else LastWith(items[..|items| - 1], key, k)
  }

  // The index points at the one place each key occurs in the result.
  ghost predicate IndexOk(m: Merge, key: string) {
    && AllKeyed(m.result, key)
    && (forall k :: k in m.index ==> m.index[k] < |m.result| && m.result[m.index[k]].entries[key] == k)
    && (forall i :: 0 <= i < |m.result| ==> m.result[i].entries[key] in m.index && m.index[m.result[i].entries[key]] == i)
  }

  ghost predicate Faithful(m: Merge, all: seq<Value>, key: string) {
    && AllKeyed(all, key) && IndexOk(m, key)
    && KeysOf(m.result, key) == Dedupe(KeysOf(all, key))
    && forall i :: 0 <= i < |m.result| ==> LastWith(all, key, m.result[i].entries[key]) == Some(m.result[i])
  }

  lemma KeysSnoc(all: seq<Value>, item: Value, key: string)
    requires AllKeyed(all, key) && HasKey(item, key)
    ensures KeysOf(all + [item], key) == KeysOf(all, key) + [item.entries[key]]
    ensures Dedupe(KeysOf(all + [item], key)) ==
            (if item.entries[key] in Dedupe(KeysOf(all, key)) then Dedupe(KeysOf(all, key))
             else Dedupe(KeysOf(all, key)) + [item.entries[key]])
    ensures forall k :: LastWith(all + [item], key, k) == if k == item.entries[key] then Some(item) else LastWith(all, key, k)
  {
    assert (all + [item])[..|all|] == all;
    assert (KeysOf(all, key) + [item.entries[key]])[..|all|] == KeysOf(all, key);
  }

  // A key is indexed exactly when the result already has it.
  lemma IndexedIffPresent(m: Merge, key: string, k: Value)
    requires IndexOk(m, key)
    ensures k in m.index <==> k in KeysOf(m.result, key)
  {
    if k in m.index { assert KeysOf(m.result, key)[m.index[k]] == k; }
    if k in KeysOf(m.result, key) {
      var i :| 0 <= i < |m.result| && KeysOf(m.result, key)[i] == k;
      assert m.result[i].entries[key] == k;
    }
  }

  lemma AddKeys(m: Merge, item: Value, key: string)
    requires IndexOk(m, key) && HasKey(item, key)
    ensures var m' := AddOverride(m, item, key);
            && IndexOk(m', key)
            && KeysOf(m'.result, key) == (if item.entries[key] in m.index then KeysOf(m.result, key)
                                          else KeysOf(m.result, key) + [item.entries[key]])
  {}

  // Each result item is still the last one carrying its key.
  lemma AddKeepsLast(m: Merge, all: seq<Value>, item: Value, key: string, i: nat)
    requires Faithful(m, all, key) && HasKey(item, key)
    requires i < |AddOverride(m, item, key).result|
    ensures var r := AddOverride(m, item, key).result[i];
            HasKey(r, key) && AllKeyed(all + [item], key) && LastWith(all + [item], key, r.entries[key]) == Some(r)
  {
    KeysSnoc(all, item, key);
    var k := item.entries[key];
    var r := AddOverride(m, item, key).result[i];
    if k in m.index && i == m.index[k] {
      assert r == item;
    } else if i < |m.result| {
      assert r == m.result[i] && r.entries[key] != k;
    } else {
      assert r == item;
    }
  }

  lemma AddFaithful(m: Merge, all: seq<Value>, item: Value, key: string)
    requires Faithful(m, all, key) && HasKey(item, key)
    ensures Faithful(AddOverride(m, item, key), all + [item], key)
  {
    AddKeys(m, item, key);
    KeysSnoc(all, item, key);
    IndexedIffPresent(m, key, item.entries[key]);
    var r := AddOverride(m, item, key).result;
    forall i | 0 <= i < |r| ensures LastWith(all + [item], key, r[i].entries[key]) == Some(r[i]) {
      AddKeepsLast(m, all, item, key, i);
    }
  }

  lemma UnindexedKey(front: seq<Value>, m: Merge, item: Value, key: string)
    requires Faithful(m, front, key) && m.result == front && HasKey(item, key)
    requires item.entries[key] !in KeysOf(front, key)
    ensures AddBase(m, item, key) == AddOverride(m, item, key)
  {
    assert forall i :: 0 <= i < |front| ==> KeysOf(front, key)[i] == front[i].entries[key];
  }

  lemma {:induction false} BaseFaithful(base: seq<Value>, key: string)
    requires AllKeyed(base, key) && Distinct(KeysOf(base, key))
    ensures Faithful(FoldBase(base, key), base, key)
  {
    if base != [] {
      var front, item := base[..|base| - 1], base[|base| - 1];
      assert KeysOf(base, key) == KeysOf(front, key) + [item.entries[key]];
      LastIsNew(KeysOf(front, key), item.entries[key]);
      BaseFaithful(front, key);
      BaseKept(front, key);
      UnindexedKey(front, FoldBase(front, key), item, key);
      AddFaithful(FoldBase(front, key), front, item, key);
      assert base == front + [item];
    }
  }

  lemma LastIsNew(keys: seq<Value>, k: Value)
    requires Distinct(keys + [k])
    ensures Distinct(keys) && k !in keys
  {
    var all := keys + [k];
    forall i | 0 <= i < |keys| ensures keys[i] != k { assert all[i] != all[|keys|]; }
    forall i, j | 0 <= i < j < |keys| ensures keys[i] != keys[j] { assert all[i] != all[j]; }
  }

  lemma {:induction false} OverrideFaithful(base: seq<Value>, over: seq<Value>, key: string)
    requires AllKeyed(base, key) && AllKeyed(over, key) && Distinct(KeysOf(base, key))
    ensures Faithful(FoldOverride(base, over, key), base + over, key)
  {
    if over == [] {
      BaseFaithful(base, key);
      assert base + over == base;
    } else {
      var front, item := over[..|over| - 1], over[|over| - 1];
      OverrideFaithful(base, front, key);
      assert base + over == base + front + [item];
      AddFaithful(FoldOverride(base, front, key), base + front, item, key);
    }
  }

  /** A keyed merge of a base with distinct keys has distinct keys, in base order and then in
      order of first appearance, and holds for each key the last item that carries it. */
  lemma {:induction false} KeyedMergeMeaning(base: seq<Value>, over: seq<Value>, key: string)
    requires AllKeyed(base, key) && AllKeyed(over, key) && Distinct(KeysOf(base, key))
    ensures var r := FoldOverride(base, over, key).result;
            && AllKeyed(r, key)
            && Distinct(KeysOf(r, key))
            && KeysOf(r, key) == Dedupe(KeysOf(base + over, key))
            && |base| <= |r| && KeysOf(r[..|base|], key) == KeysOf(base, key)
            && (forall i :: 0 <= i < |r| ==> LastWith(base + over, key, r[i].entries[key]) == Some(r[i]))
  {
    OverrideFaithful(base, over, key);
    DedupeMembers(KeysOf(base + over, key));
    BasePrefix(base, over, key);
  }

  lemma {:induction false} BasePrefix(base: seq<Value>, over: seq<Value>, key: string)
    requires AllKeyed(base, key) && AllKeyed(over, key)
    ensures var m := FoldOverride(base, over, key);
            && AllKeyed(m.result, key) && |base| <= |m.result| && KeysOf(m.result[..|base|], key) == KeysOf(base, key)
            && (forall k :: k in m.index ==> m.index[k] < |m.result| && m.result[m.index[k]].entries[key] == k)
    decreases |over|, |base|
  {
    if over != [] {
      BasePrefix(base, over[..|over| - 1], key);
    } else if base != [] {
      BasePrefix(base[..|base| - 1], [], key);
      BaseKept(base[..|base| - 1], key);
      BaseKept(base, key);
    }
  }

  lemma FoldBaseSnoc(front: seq<Value>, last: Value, key: string)
    ensures FoldBase(front + [last], key) == AddBase(FoldBase(front, key), last, key)
  {
    assert (front + [last])[..|front|] == front;
  }

  lemma {:induction false} BaseKept(base: seq<Value>, key: string)
    requires AllKeyed(base, key)
    ensures FoldBase(base, key).result == base
  {
    if base != [] {
      var front, last := base[..|base| - 1], base[|base| - 1];
      assert base == front + [last] && HasKey(last, key);
      BaseKept(front, key);
      FoldBaseSnoc(front, last, key);
    }
  }

  /** The merged keys are distinct exactly when the base's are. */
  lemma DistinctIffBaseDistinct(base: seq<Value>, over: seq<Value>, key: string)
    requires AllKeyed(base, key) && AllKeyed(over, key)
    ensures var r := FoldOverride(base, over, key).result;
            AllKeyed(r, key) && (Distinct(KeysOf(r, key)) <==> Distinct(KeysOf(base, key)))
  {
    BasePrefix(base, over, key);
    var r := FoldOverride(base, over, key).result;
    if Distinct(KeysOf(base, key)) {
      KeyedMergeMeaning(base, over, key);
    }
    if Distinct(KeysOf(r, key)) {
      forall i, j | 0 <= i < j < |base| ensures KeysOf(base, key)[i] != KeysOf(base, key)[j] {
        assert KeysOf(r[..|base|], key)[i] == KeysOf(r, key)[i] && KeysOf(r[..|base|], key)[j] == KeysOf(r, key)[j];
      }
    }
  }

  // The last place a key has in the base.
  ghost predicate LastIn(base: seq<Value>, key: string, i: int)
    requires AllKeyed(base, key)
  {
    0 <= i < |base| && forall j :: i < j < |base| ==> base[j].entries[key] != base[i].entries[key]
  }

  lemma {:induction false} BaseIndex(base: seq<Value>, key: string, i: int)
    requires AllKeyed(base, key) && LastIn(base, key, i)
    ensures base[i].entries[key] in FoldBase(base, key).index && FoldBase(base, key).index[base[i].entries[key]] == i
  {
    var front, last := base[..|base| - 1], base[|base| - 1];
    assert base == front + [last] && HasKey(last, key);
    BaseKept(front, key);
    FoldBaseSnoc(front, last, key);
    if i < |front| {
      assert front[i] == base[i] && base[|base| - 1].entries[key] != base[i].entries[key];
      assert LastIn(front, key, i);
      BaseIndex(front, key, i);
    }
  }

  lemma {:induction false} OverrideIndex(base: seq<Value>, over: seq<Value>, key: string, i: int)
    requires AllKeyed(base, key) && AllKeyed(over, key) && LastIn(base, key, i)
    ensures var m := FoldOverride(base, over, key);
            base[i].entries[key] in m.index && m.index[base[i].entries[key]] == i && |base| <= |m.result|
  {
    if over == [] {
      BaseIndex(base, key, i);
      BaseKept(base, key);
    } else {
      OverrideIndex(base, over[..|over| - 1], key, i);
    }
  }

  /** Whatever the base's keys: a base item stays where it is, and is replaced, by the last override
      that carries its key, exactly when it is the last base item that does. */
  lemma {:induction false} BaseItems(base: seq<Value>, over: seq<Value>, key: string, i: int)
    requires AllKeyed(base, key) && AllKeyed(over, key) && 0 <= i < |base|
    ensures var r := FoldOverride(base, over, key).result; var k := base[i].entries[key];
            |base| <= |r| && r[i] == if LastIn(base, key, i) && LastWith(over, key, k).Some? then LastWith(over, key, k).value else base[i]
  {
    BasePrefix(base, over, key);
    if over == [] {
      BaseKept(base, key);
    } else {
      var front, item := over[..|over| - 1], over[|over| - 1];
      BaseItems(base, front, key, i);
      BasePrefix(base, front, key);
      var m := FoldOverride(base, front, key);
      var k := base[i].entries[key];
      if LastIn(base, key, i) {
        OverrideIndex(base, front, key, i);
      } else if item.entries[key] == k {
        var j := LastOf(base, key, i);
        OverrideIndex(base, front, key, j);
      }
      if item.entries[key] in m.index && m.index[item.entries[key]] == i {
        assert m.result[i].entries[key] == item.entries[key];
        assert KeysOf(m.result[..|base|], key)[i] == KeysOf(base, key)[i];
      }
    }
  }

  lemma {:induction false} LastOf(base: seq<Value>, key: string, i: nat) returns (j: nat)
    requires AllKeyed(base, key) && i < |base|
    ensures i <= j < |base| && LastIn(base, key, j) && base[j].entries[key] == base[i].entries[key]
    decreases |base| - i
  {
    if n :| i < n < |base| && base[n].entries[key] == base[i].entries[key] {
      j := LastOf(base, key, n);
    } else {
      j := i;
    }
  }

  /** Arrays merge by "code" when every item of both is a table that has it, else by "id" when every
      item has that, and are otherwise appended. */
  lemma ArraysMeaning(base: seq<Value>, over: seq<Value>)
    ensures var all := base + over;
            var coded := all != [] && forall i :: 0 <= i < |all| ==> all[i].Table? && "code" in all[i].entries;
            var named := all != [] && forall i :: 0 <= i < |all| ==> all[i].Table? && "id" in all[i].entries;
            Merged(List(base), List(over)) ==
            List(if coded then FoldOverride(base, over, "code").result
                 else if named then FoldOverride(base, over, "id").result
                 else base + over)
  {
    var all := base + over;
    assert KEYED_FIELDS[0] == "code" && KEYED_FIELDS[1] == "id";
    assert AllKeyed(all, "code") <==> forall i :: 0 <= i < |all| ==> all[i].Table? && "code" in all[i].entries;
    assert AllKeyed(all, "id") <==> forall i :: 0 <= i < |all| ==> all[i].Table? && "id" in all[i].entries;
  }

  /** Tables merge entry by entry; a value of one kind over one of another replaces it. */
  lemma MergeMeaning(a: Value, b: Value)
    ensures a.Table? && b.Table? ==>
              && Merged(a, b).Table? && Merged(a, b).entries.Keys == a.entries.Keys + b.entries.Keys
              && (forall k :: k in a.entries && k !in b.entries ==> Merged(a, b).entries[k] == a.entries[k])
              && (forall k :: k in b.entries && k !in a.entries ==> Merged(a, b).entries[k] == b.entries[k])
              && (forall k :: k in a.entries && k in b.entries ==> Merged(a, b).entries[k] == Merged(a.entries[k], b.entries[k]))
    ensures !(a.Table? && b.Table?) && !(a.List? && b.List?) ==> Merged(a, b) == b
  {}

  /* ---------- tables ---------- */

  function Merged(base: Value, over: Value): Value
    decreases over
  {
    if base.Table? && over.Table? then
      Table(map k | k in base.entries.Keys + over.entries.Keys ::
              if k !in over.entries then base.entries[k]
              else if k in base.entries then Merged(base.entries[k], over.entries[k])
              else over.entries[k])
    else if base.List? && over.List? then List(MergedArrays(base.items, over.items))
    else over
  }

  function MergedEntry(base: map<string, Value>, over: map<string, Value>, k: string): Value
    requires k in base || k in over
  {
    if k !in over then base[k] else if k in base then Merged(base[k], over[k]) else over[k]
  }

  // The result once the override's keys in done have been merged in.
  ghost function MergedSoFar(base: map<string, Value>, over: map<string, Value>, done: set<string>): map<string, Value>
    requires done <= over.Keys
  {
    map k | k in base.Keys + done :: if k in done then MergedEntry(base, over, k) else base[k]
  }

  lemma MergeOneMore(base: map<string, Value>, over: map<string, Value>, done: set<string>, key: string)
    requires done <= over.Keys && key in over && key !in done
    ensures MergedSoFar(base, over, done + {key}) == MergedSoFar(base, over, done)[key := MergedEntry(base, over, key)]
    ensures key in MergedSoFar(base, over, done) <==> key in base
    ensures MergedEntry(base, over, key) ==
            (if key in MergedSoFar(base, over, done) then Merged(MergedSoFar(base, over, done)[key], over[key]) else over[key])
  {}

  lemma MergedIsEntries(base: Value, over: Value)
    requires base.Table? && over.Table?
    ensures Merged(base, over) == Table(MergedSoFar(base.entries, over.entries, over.entries.Keys))
    ensures MergedSoFar(base.entries, over.entries, {}) == base.entries
  {
    var m, r := Merged(base, over).entries, MergedSoFar(base.entries, over.entries, over.entries.Keys);
    assert m.Keys == r.Keys;
    forall k | k in r ensures m[k] == r[k] {}
  }

  method MergeEntry(result: map<string, Value>, over: Value, key: string) returns (r: Value)
    requires over.Table? && key in over.entries
    ensures r == if key in result then Merged(result[key], over.entries[key]) else over.entries[key]
    decreases over, 0
  {
    if key in result {
      r := DeepMerge(result[key], over.entries[key]);
    } else {
      r := over.entries[key];
    }
  }

  method MergeTables(base: map<string, Value>, over: Value) returns (result: map<string, Value>)
    requires over.Table?
    ensures result == MergedSoFar(base, over.entries, over.entries.Keys)
    decreases over, 1
  {
    result := base;
    var done: set<string> := {};
    MergedIsEntries(Table(base), over);
    while over.entries.Keys - done != {}
      invariant done <= over.entries.Keys && result == MergedSoFar(base, over.entries, done)
      decreases over.entries.Keys - done
    {
      var key :| key in over.entries.Keys - done;
      MergeOneMore(base, over.entries, done, key);
      var merged := MergeEntry(result, over, key);
      result := result[key := merged];
      done := done + {key};
    }
    assert done == over.entries.Keys;
  }

  method DeepMerge(base: Value, over: Value) returns (r: Value)
    ensures r == Merged(base, over)
    decreases over, 2
  {
    if base.Table? && over.Table? {
      var result := MergeTables(base.entries, over);
      MergedIsEntries(base, over);
      r := Table(result);
    } else if base.List? && over.List? {
      var field := DetectKeyedField(base.items + over.items);
      if field.Some? {
        var items := MergeByKey(base.items, over.items, field.value);
        return List(items);
      }
      return List(base.items + over.items);
    } else {
      r := over;
    }
  }

  /* ---------- looking a path up ---------- */

  function Get(v: Value, path: seq<string>): Option<Value> {
    if path == [] then Some(v)
    else if v.Table? && path[0] in v.entries then Get(v.entries[path[0]], path[1..])
    else None
  }

  // dotted_key.split(".")
  function Parts(dotted: string): seq<string> {
    if dotted == "" then [""]
    else
      var rest := Parts(dotted[1..]);
      if dotted[0] == '.' then [""] + rest
      else if rest == [] then [[dotted[0]]] else [[dotted[0]] + rest[0]] + rest[1..]
  }

  method ExtractKey(data: Value, dotted: string) returns (r: Option<Value>)
    ensures r == Get(data, Parts(dotted))
  {
    var parts := Parts(dotted);
    var current := data;
    for i := 0 to |parts|
      invariant Get(data, parts) == Get(current, parts[i..])
    {
      assert parts[i..][1..] == parts[i + 1..];
      if current.Table? && parts[i] in current.entries {
        current := current.entries[parts[i]];
      } else {
        return None;
      }
    }
    r := Some(current);
  }

  // The parts with dots between them.
  ghost function Dotted(parts: seq<string>): string {
    if parts == [] then "" else if |parts| == 1 then parts[0] else parts[0] + "." + Dotted(parts[1..])
  }

  /** A dotted key's parts are the pieces between its dots, however many. */
  lemma {:induction false} PartsMeaning(dotted: string)
    ensures Parts(dotted) != [] && Dotted(Parts(dotted)) == dotted
    ensures forall i, j :: 0 <= i < |Parts(dotted)| && 0 <= j < |Parts(dotted)[i]| ==> Parts(dotted)[i][j] != '.'
  {
    if dotted != "" {
      var rest := Parts(dotted[1..]);
      PartsMeaning(dotted[1..]);
      if dotted[0] == '.' {
        assert ([""] + rest)[1..] == rest;
        assert "" + "." + Dotted(rest) == dotted;
      } else {
        assert Parts(dotted) == [[dotted[0]] + rest[0]] + rest[1..];
        assert ([[dotted[0]] + rest[0]] + rest[1..])[1..] == rest[1..];
        if |rest| > 1 {
          assert [dotted[0]] + rest[0] + "." + Dotted(rest[1..]) == [dotted[0]] + (rest[0] + "." + Dotted(rest[1..]));
        }
        assert [dotted[0]] + dotted[1..] == dotted;
      }
    }
  }

  // A table that holds v at the path and nothing else.
  ghost function At(p: seq<string>, v: Value): Value {
    if p == [] then v else Table(map[p[0] := At(p[1..], v)])
  }

  /** What is stored at a path is found there, and nothing anywhere off the path. */
  lemma {:induction false} GetMeaning(p: seq<string>, v: Value, q: seq<string>)
    ensures Get(At(p, v), p) == Some(v)
    ensures !(p <= q) && !(q <= p) ==> Get(At(p, v), q) == None
    ensures q <= p ==> Get(At(p, v), q) == Some(At(p[|q|..], v))
  {
    if p != [] {
      GetMeaning(p[1..], v, if q == [] then [] else q[1..]);
      if q != [] && q[0] == p[0] {
        if q[1..] <= p[1..] { assert q == [q[0]] + q[1..] && p == [p[0]] + p[1..]; assert q <= p; }
        if p[1..] <= q[1..] { assert q == [q[0]] + q[1..] && p == [p[0]] + p[1..]; assert p <= q; }
        if q <= p { assert q[1..] <= p[1..] && p[1..][|q| - 1..] == p[|q|..]; }
      }
    }
  }

  /* ---------- highest layer wins, unless something above hides it ---------- */

  // Walking the path meets something that is not a table before the path ends.
  predicate Blocks(v: Value, p: seq<string>) {
    p != [] && (!v.Table? || (p[0] in v.entries && Blocks(v.entries[p[0]], p[1..])))
  }

  /** Looking any path up in the merge of any two values: where the override has something it
      wins, merged with what the base has there; where it has nothing the base shows through
      unless the override blocks the path. */
  lemma {:induction false} MergedLookup(a: Value, b: Value, p: seq<string>)
    ensures Get(Merged(a, b), p) ==
            match Get(b, p)
            case Some(v) => Some(if Get(a, p).Some? then Merged(Get(a, p).value, v) else v)
            case None => if Blocks(b, p) then None else Get(a, p)
    decreases |p|
  {
    if p != [] && a.Table? && b.Table? && p[0] in a.entries && p[0] in b.entries {
      MergedLookup(a.entries[p[0]], b.entries[p[0]], p[1..]);
    }
  }

  function MergeLayers(layers: seq<Value>): Value
    requires layers != []
  {
    if |layers| == 1 then layers[0] else Merged(MergeLayers(layers[..|layers| - 1]), layers[|layers| - 1])
  }

  // What the highest layer that defines the path has there.
  function Highest(layers: seq<Value>, p: seq<string>): Option<Value> {
    if layers == [] then None
    else if Get(layers[|layers| - 1], p).Some? then Get(layers[|layers| - 1], p)
    else Highest(layers[..|layers| - 1], p)
  }

  // Above every layer that defines the path, some layer blocks it.
  predicate Hidden(layers: seq<Value>, p: seq<string>) {
    && layers != []
    && var front, last := layers[..|layers| - 1], layers[|layers| - 1];
       Get(last, p).None? && (Blocks(last, p) || Hidden(front, p))
  }

  /** For any layers, lowest first, and any path: the merge has nothing there iff no layer does
      or a layer above hides it; and where the highest layer defining the path has a scalar, the
      merge has that scalar iff it is not hidden. */
  lemma {:induction false} HighestLayerWins(layers: seq<Value>, p: seq<string>)
    requires layers != []
    ensures Get(MergeLayers(layers), p).None? <==> Highest(layers, p).None? || Hidden(layers, p)
    ensures Highest(layers, p).Some? && Highest(layers, p).value.Scalar? ==>
              (Get(MergeLayers(layers), p) == Highest(layers, p) <==> !Hidden(layers, p))
  {
    var front, last := layers[..|layers| - 1], layers[|layers| - 1];
    if |layers| > 1 {
      HighestLayerWins(front, p);
      MergedLookup(MergeLayers(front), last, p);
    } else {
      assert Highest(front, p) == None && !Hidden(front, p);
    }
  }

  /** The four layers of main, read with a dotted key. */
  lemma {:induction false} FourLayers(baseTeam: Value, baseUser: Value, customTeam: Value, customUser: Value, dotted: string)
    ensures var merged := Merged(Merged(Merged(baseTeam, baseUser), customTeam), customUser);
            var layers, p := [baseTeam, baseUser, customTeam, customUser], Parts(dotted);
            && (Get(merged, p).None? <==> Highest(layers, p).None? || Hidden(layers, p))
            && (Highest(layers, p).Some? && Highest(layers, p).value.Scalar? ==>
                  (Get(merged, p) == Highest(layers, p) <==> !Hidden(layers, p)))
  {
    var layers := [baseTeam, baseUser, customTeam, customUser];
    assert layers[..3] == [baseTeam, baseUser, customTeam];
    assert layers[..3][..2] == [baseTeam, baseUser];
    assert layers[..3][..2][..1] == [baseTeam];
    assert MergeLayers(layers[..3][..2]) == Merged(baseTeam, baseUser);
    assert MergeLayers(layers[..3]) == Merged(Merged(baseTeam, baseUser), customTeam);
    HighestLayerWins(layers, Parts(dotted));
  }

  // Wherever both define a path, both or neither have a table there.
  ghost predicate Agree(a: Value, b: Value) {
    forall p :: Get(a, p).Some? && Get(b, p).Some? ==> (Get(a, p).value.Table? <==> Get(b, p).value.Table?)
  }

  lemma {:induction false} AgreeingNeverBlocks(a: Value, b: Value, p: seq<string>)
    requires Agree(a, b) && Get(a, p).Some?
    ensures !Blocks(b, p)
    decreases |p|
  {
    assert Get(a, []) == Some(a) && Get(b, []) == Some(b);
    if p != [] && b.Table? && p[0] in b.entries {
      var x, y := a.entries[p[0]], b.entries[p[0]];
      forall q | Get(x, q).Some? && Get(y, q).Some? ensures Get(x, q).value.Table? <==> Get(y, q).value.Table? {
        assert ([p[0]] + q)[1..] == q;
        assert Get(a, [p[0]] + q) == Get(x, q) && Get(b, [p[0]] + q) == Get(y, q);
      }
      AgreeingNeverBlocks(x, y, p[1..]);
    }
  }

  /** Layers that agree on which paths are tables hide nothing that any of them defines. */
  lemma {:induction false} AgreeingLayersHideNothing(layers: seq<Value>, p: seq<string>)
    requires forall i, j :: 0 <= i < j < |layers| ==> Agree(layers[i], layers[j])
    ensures Hidden(layers, p) ==> Highest(layers, p).None?
  {
    if Hidden(layers, p) && Highest(layers, p).Some? {
      var front, last := layers[..|layers| - 1], layers[|layers| - 1];
      AgreeingLayersHideNothing(front, p);
      var i := HighestIndex(front, p);
      assert Agree(layers[i], last);
      AgreeingNeverBlocks(layers[i], last, p);
    }
  }

  lemma {:induction false} HighestIndex(layers: seq<Value>, p: seq<string>) returns (i: nat)
    requires Highest(layers, p).Some?
    ensures i < |layers| && Get(layers[i], p) == Highest(layers, p)
  {
    if Get(layers[|layers| - 1], p).Some? { i := |layers| - 1; }
    else { i := HighestIndex(layers[..|layers| - 1], p); }
  }

  /** An instance where hiding happens: a scalar over a table. */
  lemma DisagreementHides()
    ensures var low := Table(map["a" := Table(map["b" := Scalar("1")])]);
            var high := Table(map["a" := Scalar("2")]);
            && Hidden([low, high], ["a", "b"])
            && Highest([low, high], ["a", "b"]) == Some(Scalar("1")) && Get(MergeLayers([low, high]), ["a", "b"]) == None
  {
    var low := Table(map["a" := Table(map["b" := Scalar("1")])]);
    var high := Table(map["a" := Scalar("2")]);
    assert [low, high][..1] == [low];
    assert ["a", "b"][1..] == ["b"];
    assert Get(low, ["a", "b"]) == Get(low.entries["a"], ["b"]);
    assert Get(low.entries["a"], ["b"]) == Some(Scalar("1"));
    HighestLayerWins([low, high], ["a", "b"]);
  }
}
