/**
 * The update-document validator of find-and-update: an update document must hold
 * at least one update operator, that is a field whose name begins with '$'.
 */
module Validators {
  import opened Wrappers
  import opened Documents

  /** The rejection: an illegal-argument error whose message names the document. */
  datatype ValidationError = IllegalArgument(message: string, document: Document)

  const OperatorRequiredMessage: string :=
    "Find and update requires an update operator (beginning with '$') in the update Document: "

  /** `String.startsWith("$")`: the empty name does not qualify. */
  predicate StartsWithDollar(key: string) {
    |key| > 0 && key[0] == '$'
  }

  /** Whether some key in the list is an operator, scanning from the front. */
  function HasOperatorKey(keys: seq<string>): (b: bool)
    ensures b <==> exists i :: 0 <= i < |keys| && StartsWithDollar(keys[i])
  {
    if keys == [] then false
    else if StartsWithDollar(keys[0]) then true
    else
      var rest := HasOperatorKey(keys[1..]);
      assert forall i :: 1 <= i < |keys| ==> keys[i] == keys[1..][i - 1];
      rest
  }

  /** validate: passes on the first operator key, otherwise throws with the document. */
  function Validate(d: Document): (r: Outcome<ValidationError>)
    ensures r.Pass? <==> exists i :: 0 <= i < |d| && StartsWithDollar(d[i].key)
    ensures r.Fail? ==> r.error == IllegalArgument(OperatorRequiredMessage, d)
  {
    if HasOperatorKey(Keys(d)) then Pass else Fail(IllegalArgument(OperatorRequiredMessage, d))
  }

  /** An empty update document is rejected. */
  lemma EmptyRejected()
    ensures Validate([]) == Fail(IllegalArgument(OperatorRequiredMessage, []))
  {
  }

  /** A document whose only field is an operator is accepted. */
  lemma SingleOperatorAccepted(op: string, v: Value)
    requires StartsWithDollar(op)
    ensures Validate([Field(op, v)]).Pass?
  {
    assert StartsWithDollar([Field(op, v)][0].key);
  }

  /** Only the field names are inspected: the values never change the verdict. */
  lemma OnlyKeysMatter(d: Document, e: Document)
    requires Keys(d) == Keys(e)
    ensures Validate(d).Pass? <==> Validate(e).Pass?
  {
  }

  /** Some key is an operator exactly when some member of the key multiset is. */
  lemma {:induction false} OperatorInMultiset(keys: seq<string>)
    ensures HasOperatorKey(keys) <==> exists k :: k in multiset(keys) && StartsWithDollar(k)
    decreases |keys|
  {
    if keys != [] {
      assert keys == [keys[0]] + keys[1..];
      assert multiset(keys) == multiset{keys[0]} + multiset(keys[1..]);
      OperatorInMultiset(keys[1..]);
    }
  }

  /** Where the operator sits among the keys does not matter, nor does their order. */
  lemma OrderIrrelevant(d: Document, e: Document)
    requires multiset(Keys(d)) == multiset(Keys(e))
    ensures Validate(d).Pass? <==> Validate(e).Pass?
  {
    OperatorInMultiset(Keys(d));
    OperatorInMultiset(Keys(e));
  }
}
