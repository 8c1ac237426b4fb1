/** Finding one text in another. */
module TextSearch {
  import opened Common

  predicate OccursAt(text: string, query: string, i: nat) {
    i + |query| <= |text| && text[i..i + |query|] == query
  }

  /** The first occurrence at or after `from`, as `std::string::find` returns it. */
  function Find(text: string, query: string, from: nat): (r: Option<nat>)
    ensures r.Some? ==> from <= r.value && r.value + |query| <= |text|
    decreases |text| - from
  {
    if from + |query| > |text| then None
    else if OccursAt(text, query, from) then Some(from)
    else Find(text, query, from + 1)
  }

  lemma {:induction false} FindIsFirst(text: string, query: string, from: nat, p: nat)
    requires from <= p && OccursAt(text, query, p)
    ensures var r := Find(text, query, from); r.Some? && r.value <= p && OccursAt(text, query, r.value)
    decreases |text| - from
  {
    if OccursAt(text, query, from) {
    } else {
      FindIsFirst(text, query, from + 1, p);
    }
  }

  lemma {:induction false} FindOccurs(text: string, query: string, from: nat)
    ensures var r := Find(text, query, from); r.Some? ==> OccursAt(text, query, r.value)
    decreases |text| - from
  {
    if from + |query| > |text| || OccursAt(text, query, from) {
    } else {
      FindOccurs(text, query, from + 1);
    }
  }
}
