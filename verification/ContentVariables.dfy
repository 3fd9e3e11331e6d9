/** Positional content variables: the template's slot order maps named values to the keys
    "1", "2", ... (domain/notifications.py, domain/scheduled_notifications.py). */
module ContentVariables {

  // str(n)
  function Str(n: nat): string {
    if n < 10 then [('0' as int + n) as char] else Str(n / 10) + [('0' as int + n % 10) as char]
  }

  function ValueOf(s: string): int {
    if s == "" then 0 else 10 * ValueOf(s[..|s| - 1]) + (s[|s| - 1] as int - '0' as int)
  }

  lemma {:induction false} StrRoundTrip(n: nat)
    ensures ValueOf(Str(n)) == n
  {
    if n >= 10 {
      StrRoundTrip(n / 10);
      assert Str(n)[..|Str(n)| - 1] == Str(n / 10);
    }
  }

  /** str(n) is plain decimal: digits only, none leading but the one of 0 itself. */
  lemma {:induction false} StrDigits(n: nat)
    ensures Str(n) != "" && (forall i :: 0 <= i < |Str(n)| ==> '0' <= Str(n)[i] <= '9') && (n > 0 ==> Str(n)[0] != '0')
  {
    if n >= 10 {
      StrDigits(n / 10);
      assert Str(n)[0] == Str(n / 10)[0];
    }
  }

  function Positional(slots: seq<string>, values: map<string, string>): map<string, string>
    requires forall s :: s in slots ==> s in values
  {
    if slots == [] then map[]
    else
      var n := |slots| - 1;
      assert forall s :: s in slots[..n] ==> s in slots;
      Positional(slots[..n], values)[Str(n + 1) := values[slots[n]]]
  }

  // Reading the positional variables back by slot name.
  function Named(slots: seq<string>, vars: map<string, string>): map<string, string>
    requires forall i: nat :: 1 <= i <= |slots| ==> Str(i) in vars
  {
    if slots == [] then map[]
    else
      var n := |slots| - 1;
      Named(slots[..n], vars)[slots[n] := vars[Str(n + 1)]]
  }

  ghost predicate IsPosition(key: string, n: nat) {
    exists i: nat :: 1 <= i <= n && key == Str(i)
  }

  lemma StrInjective(i: nat, j: nat)
    ensures Str(i) == Str(j) ==> i == j
  {
    StrRoundTrip(i);
    StrRoundTrip(j);
  }

  lemma SlotsOfPrefix(slots: seq<string>, values: map<string, string>)
    requires slots != [] && forall s :: s in slots ==> s in values
    ensures slots[|slots| - 1] in values && forall s :: s in slots[..|slots| - 1] ==> s in values
  {
    assert forall s :: s in slots[..|slots| - 1] ==> s in slots;
  }

  lemma {:induction false} PositionalAt(slots: seq<string>, values: map<string, string>, i: nat)
    requires 1 <= i <= |slots| && forall s :: s in slots ==> s in values
    ensures Str(i) in Positional(slots, values) && Positional(slots, values)[Str(i)] == values[slots[i - 1]]
  {
    SlotsOfPrefix(slots, values);
    if i < |slots| {
      PositionalAt(slots[..|slots| - 1], values, i);
      StrInjective(i, |slots|);
    }
  }

  lemma {:induction false} PositionalKey(slots: seq<string>, values: map<string, string>, k: string)
    requires (forall s :: s in slots ==> s in values) && k in Positional(slots, values)
    ensures IsPosition(k, |slots|)
  {
    SlotsOfPrefix(slots, values);
    if k == Str(|slots|) {
    } else {
      PositionalKey(slots[..|slots| - 1], values, k);
      var i: nat :| 1 <= i <= |slots| - 1 && k == Str(i);
    }
  }

  /** The keys are exactly "1".."n", each holding its slot's value. */
  lemma {:induction false} PositionalEntries(slots: seq<string>, values: map<string, string>)
    requires forall s :: s in slots ==> s in values
    ensures forall k :: k in Positional(slots, values) <==> IsPosition(k, |slots|)
    ensures forall i: nat :: 1 <= i <= |slots| ==>
              Str(i) in Positional(slots, values) && Positional(slots, values)[Str(i)] == values[slots[i - 1]]
  {
    forall i: nat | 1 <= i <= |slots|
      ensures Str(i) in Positional(slots, values) && Positional(slots, values)[Str(i)] == values[slots[i - 1]]
    {
      PositionalAt(slots, values, i);
    }
    forall k | k in Positional(slots, values) ensures IsPosition(k, |slots|) { PositionalKey(slots, values, k); }
  }

  ghost predicate Carries(vars: map<string, string>, slots: seq<string>, values: map<string, string>) {
    && (forall s :: s in slots ==> s in values)
    && forall i: nat :: 1 <= i <= |slots| ==> Str(i) in vars && vars[Str(i)] == values[slots[i - 1]]
  }

  lemma CarriesPrefix(vars: map<string, string>, slots: seq<string>, values: map<string, string>)
    requires Carries(vars, slots, values) && slots != []
    ensures Carries(vars, slots[..|slots| - 1], values)
  {
    var front := slots[..|slots| - 1];
    assert forall s :: s in front ==> s in slots;
    forall i: nat | 1 <= i <= |front| ensures Str(i) in vars && vars[Str(i)] == values[front[i - 1]] {
      assert front[i - 1] == slots[i - 1];
    }
  }

  lemma {:induction false} NamedEntries(slots: seq<string>, values: map<string, string>, vars: map<string, string>)
    requires Carries(vars, slots, values)
    ensures forall s :: s in Named(slots, vars) <==> s in slots
    ensures forall s :: s in slots ==> Named(slots, vars)[s] == values[s]
  {
    if slots != [] {
      CarriesPrefix(vars, slots, values);
      NamedEntries(slots[..|slots| - 1], values, vars);
      assert slots == slots[..|slots| - 1] + [slots[|slots| - 1]];
      assert Str(|slots|) in vars;
    }
  }

  /** Lossless: when the values' names are exactly the slots, as a composed message's are, the
      named values come back from the positional ones. */
  lemma {:induction false} PositionalRoundTrip(slots: seq<string>, values: map<string, string>)
    requires values.Keys == set s | s in slots
    ensures var p := Positional(slots, values);
            && (forall i: nat :: 1 <= i <= |slots| ==> Str(i) in p)
            && Named(slots, p) == values
  {
    PositionalEntries(slots, values);
    NamedEntries(slots, values, Positional(slots, values));
    assert Named(slots, Positional(slots, values)).Keys == values.Keys;
  }

  // The comprehension over enumerate(variable_slots, start=1).
  method BuildPositional(slots: seq<string>, values: map<string, string>) returns (vars: map<string, string>)
    requires forall s :: s in slots ==> s in values
    ensures vars == Positional(slots, values)
  {
    vars := map[];
    for i := 0 to |slots|
      invariant forall s :: s in slots[..i] ==> s in values
      invariant vars == Positional(slots[..i], values)
    {
      assert slots[..i + 1][..|slots[..i + 1]| - 1] == slots[..i];
      vars := vars[Str(i + 1) := values[slots[i]]];
    }
    assert slots[..|slots|] == slots;
  }
}
