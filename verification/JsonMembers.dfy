/** The members of parsed JSON dicts. */
module JsonMembers {
  import opened Basics
  import opened Json
  import JsonTheorems

  // ---- dict members ----

  /** The value under a key; as in a Python dict, the last field with that key has it. */
  function Find(fields: seq<Field>, key: string): Option<Json> {
    if fields == [] then None
    else
      var later := Find(fields[1..], key);
      if later.None? && fields[0].key == key then Some(fields[0].value) else later
  }

  function Member(v: Json, key: string): Option<Json> { if v.JObject? then Find(v.fields, key) else None }

  lemma {:induction false} FindInserted(f: Field, fields: seq<Field>, key: string)
    ensures Find(InsertField(f, fields), key) == Find([f] + fields, key)
  {
    assert ([f] + fields)[1..] == fields;
    if fields != [] && !TextLe(f.key, fields[0].key) {
      JsonTheorems.TextLeTotal(f.key, f.key);
      var tail := InsertField(f, fields[1..]);
      assert InsertField(f, fields)[1..] == tail;
      FindInserted(f, fields[1..], key);
      assert ([f] + fields[1..])[1..] == fields[1..];
    }
  }

  lemma {:induction false} FindSorted(fields: seq<Field>, key: string)
    ensures Find(SortFields(fields), key) == Find(fields, key)
  {
    if fields != [] {
      FindSorted(fields[1..], key);
      FindInserted(fields[0], SortFields(fields[1..]), key);
      assert ([fields[0]] + SortFields(fields[1..]))[1..] == SortFields(fields[1..]);
    }
  }

  lemma {:induction false} FindNormalized(fields: seq<Field>, key: string)
    ensures Find(NormalizeFields(fields), key)
         == match Find(fields, key) case None => None case Some(v) => Some(Normalize(v))
  {
    if fields != [] {
      FindNormalized(fields[1..], key);
      assert NormalizeFields(fields)[1..] == NormalizeFields(fields[1..]);
    }
  }

  /** Sorting the keys of a value, at every depth, does not change what is found under them. */
  lemma {:induction false} MemberOfNormalized(v: Json, key: string)
    ensures Member(Normalize(v), key) == match Member(v, key) case None => None case Some(m) => Some(Normalize(m))
  {
    if v.JObject? {
      FindSorted(NormalizeFields(v.fields), key);
      FindNormalized(v.fields, key);
    }
  }

  lemma {:induction false} FindAt(fields: seq<Field>, i: nat)
    requires i < |fields| && forall j :: i < j < |fields| ==> fields[j].key != fields[i].key
    ensures Find(fields, fields[i].key) == Some(fields[i].value)
  {
    if i > 0 {
      FindAt(fields[1..], i - 1);
    } else {
      FindNothing(fields[1..], fields[0].key);
    }
  }

  lemma {:induction false} FindNothing(fields: seq<Field>, key: string)
    requires forall j :: 0 <= j < |fields| ==> fields[j].key != key
    ensures Find(fields, key) == None
  {
    if fields != [] {
      FindNothing(fields[1..], key);
    }
  }

  function MemberOf(v: Option<Json>, key: string): Option<Json> { if v.Some? then Member(v.value, key) else None }
}
