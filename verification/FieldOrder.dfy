/** The order in which canonical JSON lists the fields of objects, against the one RFC 8785 asks for. */
module FieldOrder {
  import opened Text
  import opened KeyOrder
  import opened CanonicalJson

  function Keys(fields: seq<MField>): (r: seq<string>)
    ensures |r| == |fields| && forall i :: 0 <= i < |r| ==> r[i] == fields[i].key
  {
    if fields == [] then [] else [fields[0].key] + Keys(fields[1..])
  }

  /** The keys of every object in the value, however deep, are so. */
  predicate Everywhere(m: Meaning, so: seq<string> -> bool) {
    match m
    case MArray(items) => forall i :: 0 <= i < |items| ==> Everywhere(items[i], so)
    case MObject(fields) => so(Keys(fields)) && forall i :: 0 <= i < |fields| ==> Everywhere(fields[i].value, so)
    case _ => true
  }

  lemma {:induction false} EverywhereInOrder(m: Meaning)
    requires Everywhere(m, Ascending)
    ensures Everywhere(m, Ascending16) <==> Everywhere(m, NoneDiverge)
  {
    match m
    case MArray(items) =>
      forall i | 0 <= i < |items|
        ensures Everywhere(items[i], Ascending16) <==> Everywhere(items[i], NoneDiverge)
      {
        EverywhereInOrder(items[i]);
      }
    case MObject(fields) =>
      KeysInOrder(Keys(fields));
      forall i | 0 <= i < |fields|
        ensures Everywhere(fields[i].value, Ascending16) <==> Everywhere(fields[i].value, NoneDiverge)
      {
        EverywhereInOrder(fields[i].value);
      }
    case _ =>
  }

  /** The text lists the fields of every object in the order of section 3.2.3 of RFC 8785. */
  predicate FieldsInOrder(text: string) {
    match ReadValue(text)
    case None => false
    case Some((m, rest)) => rest == [] && Everywhere(m, Ascending16)
  }

  /** The text of a value whose maps are sorted by key has its fields in that order if and only if no two keys of one
      object diverge. */
  lemma {:induction false} OrderedUnlessDiverging(v: Json)
    requires Valid(v) && Everywhere(Mean(v), Ascending)
    ensures FieldsInOrder(Canonical(v)) <==> Everywhere(Mean(v), NoneDiverge)
  {
    ValueReads(v, []);
    assert Canonical(v) + [] == Canonical(v);
    EverywhereInOrder(Mean(v));
  }

  /** A character of the basic plane above the surrogates, and the first beyond it. */
  const PrivateUse := "\U{E000}"
  const Linear := "\U{10000}"

  const Pair := Object([Field(PrivateUse, Null), Field(Linear, Null)])

  /** A map of those two keys is printed in the wrong order. */
  lemma {:induction false} PairOutOfOrder()
    ensures Valid(Pair) && Everywhere(Mean(Pair), Ascending) && !FieldsInOrder(Canonical(Pair))
  {
    var fields := Pair.fields;
    assert fields[1..] == [fields[1]] && fields[1..][1..] == [];
    assert MeanFields(fields[1..]) == [MField(Linear, MNull)] + MeanFields([]);
    assert MeanFields(fields) == [MField(PrivateUse, MNull)] + MeanFields(fields[1..]);
    var keys := Keys(MeanFields(fields));
    assert keys[0] == PrivateUse && keys[1] == Linear;
    assert Diverge(keys[0], keys[1]);
    assert !NoneDiverge(keys);
    OrderedUnlessDiverging(Pair);
  }
}
