/** model/Money.java: a unit of money that carries its own append-only
    history of audit records. */
module Money {
  import opened Values

  class Money {
    var history: seq<MoneyAudit>

    /** `new Money(h)`: the history starts as exactly `[h]`. */
    constructor (h: MoneyAudit)
      ensures history == [h]
    {
      history := [h];
    }

    /** Money.addHistory: appends `h` and keeps every earlier record. */
    method AddHistory(h: MoneyAudit)
      modifies this
      ensures history == old(history) + [h]
      ensures |history| == |old(history)| + 1
      ensures forall i :: 0 <= i < |old(history)| ==> history[i] == old(history)[i]
    {
      history := history + [h];
    }

    /** The equality Lombok's @EqualsAndHashCode generates: two tokens are
        equal exactly when their histories are, which List.equals decides
        element by element. */
    predicate Equals(other: Money)
      reads this, other
      ensures Equals(other) <==> (|history| == |other.history|
        && forall i :: 0 <= i < |history| ==> history[i] == other.history[i])
    {
      history == other.history
    }
  }

  /** Money's equality is an equivalence: reflexive, symmetric and
      transitive, as Object.equals requires. */
  lemma EqualsIsEquivalence(a: Money, b: Money, c: Money)
    ensures a.Equals(a)
    ensures a.Equals(b) ==> b.Equals(a)
    ensures a.Equals(b) && b.Equals(c) ==> a.Equals(c)
  {
  }
}
