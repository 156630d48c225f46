/**
 * `KeyValueMap`, the plain object both drafts fill with `map[key] = value` inside a
 * `forEach`: the variables of a firing and the fields of an event.
 */
module KeyValue {
  /** The object after assigning each pair in turn, starting from `{}`; a later key overwrites an earlier one. */
  function Bind(pairs: seq<(string, string)>): map<string, string>
    decreases |pairs|
  {
    if |pairs| == 0 then map[]
    else Bind(pairs[..|pairs| - 1])[pairs[|pairs| - 1].0 := pairs[|pairs| - 1].1]
  }

  /** The keys of `pairs`. */
  function KeysOf(pairs: seq<(string, string)>): set<string> {
    set i | 0 <= i < |pairs| :: pairs[i].0
  }

  /** One more assignment extends the object by one entry. */
  lemma {:induction false} BindStep(pairs: seq<(string, string)>, i: nat)
    requires i < |pairs|
    ensures Bind(pairs[..i + 1]) == Bind(pairs[..i])[pairs[i].0 := pairs[i].1]
  {
    assert pairs[..i + 1][..i] == pairs[..i];
  }

  /** One assignment gives a one-entry object. */
  lemma BindSingle(key: string, value: string)
    ensures Bind([(key, value)]) == map[key := value]
  {
    assert [(key, value)][..0] == [];
  }

  /** The object has exactly the assigned keys. */
  lemma {:induction false} BindKeys(pairs: seq<(string, string)>)
    ensures Bind(pairs).Keys == KeysOf(pairs)
    decreases |pairs|
  {
    if |pairs| > 0 {
      var init := pairs[..|pairs| - 1];
      BindKeys(init);
      assert forall i :: 0 <= i < |init| ==> init[i] == pairs[i];
      assert KeysOf(pairs) == KeysOf(init) + {pairs[|pairs| - 1].0};
    }
  }

  /** A key holds the value of its last assignment. */
  lemma {:induction false} BindLastWins(pairs: seq<(string, string)>, i: nat)
    requires i < |pairs|
    requires forall j :: i < j < |pairs| ==> pairs[j].0 != pairs[i].0
    ensures pairs[i].0 in Bind(pairs) && Bind(pairs)[pairs[i].0] == pairs[i].1
    decreases |pairs|
  {
    if i < |pairs| - 1 {
      var init := pairs[..|pairs| - 1];
      assert forall j :: i < j < |init| ==> init[j] == pairs[j];
      BindLastWins(init, i);
    }
  }
}
