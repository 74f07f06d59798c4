/** Status bookkeeping shared by the role-template-binding controllers: the
    summary of a binding, its condition list, and the two list operations the
    controllers use on it. */
module StatusConditions {

  /** The summary values a binding's status can carry; `Unset` is the empty
      summary of a binding no controller has touched yet. */
  datatype Summary = Unset | InProgress | Completed | Error | Terminating

  /** One step's record: its type, whether it succeeded (`status` is Go's
      ConditionTrue), the reason code and a human-readable message. The
      transition timestamp is left out. */
  datatype Condition = Condition(ctype: string, status: bool, reason: string, message: string)

  datatype BindingStatus = BindingStatus(
    summary: Summary,
    observedGeneration: int,
    conditions: seq<Condition>)

  /** The named groups of condition types and reasons the lifecycle consults:
      the types this controller manages itself, the reasons that together mean
      "all local steps succeeded", and the reasons that together mean "every
      step, local and remote, succeeded". */
  datatype ConditionSets = ConditionSets(
    localTypes: set<string>,
    localSuccesses: set<string>,
    successes: set<string>)

  /** Every name in `names` is the reason of some condition. */
  predicate HasAllOf(conditions: seq<Condition>, names: set<string>) {
    forall n | n in names :: exists k | 0 <= k < |conditions| :: conditions[k].reason == n
  }

  /** Every condition reports success. */
  predicate AllTrue(conditions: seq<Condition>) {
    forall k | 0 <= k < |conditions| :: conditions[k].status
  }

  /** Drop the conditions whose type is in `types`, keeping the others in
      their original order. */
  function RemoveConditions(conditions: seq<Condition>, types: set<string>): (r: seq<Condition>)
    ensures |r| <= |conditions|
    ensures forall k | 0 <= k < |r| :: r[k].ctype !in types && r[k] in conditions
    ensures forall c | c in conditions && c.ctype !in types :: c in r
  {
    if |conditions| == 0 then []
    else
      var rest := RemoveConditions(conditions[1..], types);
      if conditions[0].ctype in types then rest else [conditions[0]] + rest
  }

  /** The same filter defined independently, from the last condition
      backwards: each kept condition goes after the ones kept before it. */
  function KeptFromEnd(conditions: seq<Condition>, types: set<string>): (r: seq<Condition>)
    decreases |conditions|
  {
    if |conditions| == 0 then []
    else
      var last := conditions[|conditions| - 1];
      KeptFromEnd(conditions[..|conditions| - 1], types) + (if last.ctype in types then [] else [last])
  }

  /** Removal keeps the other conditions in their original order and with
      their multiplicity: it agrees with the filter built from the end. */
  lemma {:induction false} RemoveConditionsInOrder(conditions: seq<Condition>, types: set<string>)
    ensures RemoveConditions(conditions, types) == KeptFromEnd(conditions, types)
    decreases |conditions|
  {
    if |conditions| > 0 {
      var n := |conditions| - 1;
      var c := conditions[n];
      RemoveConditionsInOrder(conditions[..n], types);
      assert conditions == conditions[..n] + [c];
      RemoveConditionsAppend(conditions[..n], [c], types);
      assert RemoveConditions([c], types) == (if c.ctype in types then [] else [c]) by {
        assert [c][1..] == [];
      }
      assert KeptFromEnd(conditions, types) == KeptFromEnd(conditions[..n], types) + RemoveConditions([c], types);
    }
  }

  /** Removing twice is removing once. */
  lemma {:induction false} RemoveConditionsIdempotent(conditions: seq<Condition>, types: set<string>)
    ensures RemoveConditions(RemoveConditions(conditions, types), types) == RemoveConditions(conditions, types)
  {
    if |conditions| > 0 {
      RemoveConditionsIdempotent(conditions[1..], types);
      var rest := RemoveConditions(conditions[1..], types);
      if conditions[0].ctype !in types {
        assert ([conditions[0]] + rest)[1..] == rest;
      }
    }
  }

  lemma {:induction false} RemoveConditionsNone(conditions: seq<Condition>, types: set<string>)
    requires forall k | 0 <= k < |conditions| :: conditions[k].ctype !in types
    ensures RemoveConditions(conditions, types) == conditions
  {
    if |conditions| > 0 {
      RemoveConditionsNone(conditions[1..], types);
      assert conditions == [conditions[0]] + conditions[1..];
    }
  }

  lemma {:induction false} RemoveConditionsAppend(a: seq<Condition>, b: seq<Condition>, types: set<string>)
    ensures RemoveConditions(a + b, types) == RemoveConditions(a, types) + RemoveConditions(b, types)
  {
    if |a| == 0 {
      assert a + b == b;
    } else {
      assert (a + b)[1..] == a[1..] + b;
      RemoveConditionsAppend(a[1..], b, types);
    }
  }
}
