/**
 Reading documents that are written with literal keys.
 */
module JsonDocs {
  import opened Outcomes
  import opened PyText
  import opened Canonical
  import opened StoreTables
  import opened Bindings

  /** The field of a document under the first key that matches. */
  lemma {:induction false} FindInDoc(keys: seq<string>, values: seq<Json>, i: nat)
    requires |keys| == |values| && i < |keys| && forall j :: 0 <= j < i ==> A(keys[j]) != A(keys[i])
    ensures Find(Doc(keys, values).entries, A(keys[i])) == Some(values[i])
  {
    if i > 0 {
      FindInDoc(keys[1..], values[1..], i - 1);
      assert Doc(keys, values).entries[1..] == Doc(keys[1..], values[1..]).entries;
    }
  }

  /** With distinct keys, every field of a document is the value in its place. */
  lemma {:induction false} FieldsOfDoc(keys: seq<string>, values: seq<Json>)
    requires |keys| == |values| && Distinct(keys)
    ensures forall i :: 0 <= i < |keys| ==> Get(Doc(keys, values), keys[i]) == values[i]
  {
    hide Find, Doc, A;
    forall i | 0 <= i < |keys| ensures Get(Doc(keys, values), keys[i]) == values[i] {
      forall j | 0 <= j < i ensures A(keys[j]) != A(keys[i]) {
        if A(keys[j]) == A(keys[i]) { LiteralInjective(keys[j], keys[i]); }
      }
      FindInDoc(keys, values, i);
      DocIsObject(keys, values);
    }
  }

  lemma DocIsObject(keys: seq<string>, values: seq<Json>)
    requires |keys| == |values|
    ensures Doc(keys, values).Obj? && |Doc(keys, values).entries| == |keys|
  {
  }
}
