/** The `overall_progress` label that `update_implementation_status`
    recomputes from the component table. */
module Progress {
  import opened Text
  import opened Records

  const Complete := "complete"

  predicate IsComplete(c: ComponentStatus) {
    c.status == Complete
  }

  /** `sum(1 for comp in components.values() if comp.get("status") == "complete")`,
      walking the components in table order. */
  function CountComplete(keys: seq<string>, entries: map<string, ComponentStatus>): (k: nat)
    requires forall key :: key in keys ==> key in entries
    ensures k <= |keys|
  {
    if keys == [] then 0
    else (if IsComplete(entries[keys[0]]) then 1 else 0) + CountComplete(keys[1..], entries)
  }

  /** The label for `completed` of `total` components (total > 0 in the source). */
  function ProgressLabel(completed: nat, total: nat): (overall: string)
    ensures overall == Complete <==> completed == total
    ensures overall == "not_started" <==> completed == 0 < total
  {
    if completed == total then Complete
    else if completed > 0 then
      "in_progress (" + NatToString(completed) + "/" + NatToString(total) + " components complete)"
    else "not_started"
  }

  lemma {:induction false} CountAllComplete(keys: seq<string>, entries: map<string, ComponentStatus>)
    requires forall key :: key in keys ==> key in entries
    ensures CountComplete(keys, entries) == |keys| <==> forall key :: key in keys ==> IsComplete(entries[key])
  {
    if keys != [] {
      CountAllComplete(keys[1..], entries);
      assert forall key :: key in keys ==> key == keys[0] || key in keys[1..];
    }
  }

  lemma {:induction false} CountNoneComplete(keys: seq<string>, entries: map<string, ComponentStatus>)
    requires forall key :: key in keys ==> key in entries
    ensures CountComplete(keys, entries) == 0 <==> forall key :: key in keys ==> !IsComplete(entries[key])
  {
    if keys != [] {
      CountNoneComplete(keys[1..], entries);
      assert forall key :: key in keys ==> key == keys[0] || key in keys[1..];
    }
  }

  /** For a non-empty table: "complete" exactly when every component is
      complete, "not_started" exactly when none is, and otherwise the
      "in_progress (k/n components complete)" form with k the complete count. */
  lemma ProgressLabelMeaning(keys: seq<string>, entries: map<string, ComponentStatus>)
    requires keys != []
    requires forall key :: key in keys ==> key in entries
    ensures var overall := ProgressLabel(CountComplete(keys, entries), |keys|);
      && (overall == Complete <==> forall key :: key in keys ==> IsComplete(entries[key]))
      && (overall == "not_started" <==> forall key :: key in keys ==> !IsComplete(entries[key]))
      && (overall != Complete && overall != "not_started" ==>
            overall == "in_progress (" + NatToString(CountComplete(keys, entries)) + "/"
                     + NatToString(|keys|) + " components complete)")
  {
    CountAllComplete(keys, entries);
    CountNoneComplete(keys, entries);
    var k := CountComplete(keys, entries);
    if 0 < k < |keys| {
      var overall := ProgressLabel(k, |keys|);
      assert overall[0] == 'i';
    }
  }
}
