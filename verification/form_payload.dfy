/** The multipart `FormData` the forms build: an ordered list of named
    entries whose values are text or a selected file. */
module FormPayload {
  import opened Wrappers

  /** A selected file: its size in bytes and its MIME type. */
  datatype File = File(name: string, size: nat, mimeType: string)

  /** One entry's value. */
  datatype Value = Str(text: string) | Blob(file: File)

  /** The entries in `append` order. */
  type FormData = seq<(string, Value)>

  /** `formData.get(key)`: the value of the first entry named `key`. */
  function Lookup(fd: FormData, key: string): (r: Option<Value>)
    ensures r.None? <==> forall i :: 0 <= i < |fd| ==> fd[i].0 != key
    ensures r.Some? ==> exists i :: 0 <= i < |fd| && fd[i] == (key, r.value)
  {
    if |fd| == 0 then None
    else if fd[0].0 == key then Some(fd[0].1)
    else
      var r := Lookup(fd[1..], key);
      assert forall i :: 1 <= i < |fd| ==> fd[i] == fd[1..][i - 1];
      r
  }

  /** No two entries share a name. */
  predicate DistinctKeys(fd: FormData) {
    forall i, j :: 0 <= i < j < |fd| ==> fd[i].0 != fd[j].0
  }

  /** Every entry's name is one of `names`. */
  predicate KeysWithin(fd: FormData, names: set<string>) {
    forall i :: 0 <= i < |fd| ==> fd[i].0 in names
  }

  /** `get` on two forms joined looks in the second only when the first has
      no entry of that name. */
  lemma {:induction false} LookupConcat(a: FormData, b: FormData, key: string)
    ensures Lookup(a + b, key) == if Lookup(a, key).Some? then Lookup(a, key) else Lookup(b, key)
  {
    if |a| == 0 {
      assert a + b == b;
    } else {
      LookupConcat(a[1..], b, key);
      assert (a + b)[1..] == a[1..] + b;
    }
  }

  /** `get` on a one- or two-entry form. */
  lemma LookupSmall(k1: string, v1: Value, k2: string, v2: Value, key: string)
    ensures Lookup([(k1, v1)], key) == if key == k1 then Some(v1) else None
    ensures Lookup([(k1, v1), (k2, v2)], key) ==
      if key == k1 then Some(v1) else if key == k2 then Some(v2) else None
  {
    assert [(k1, v1), (k2, v2)][1..] == [(k2, v2)];
  }

  /** `append` on a form whose key is new makes `get` find the new value,
      and leaves every other key's value alone. */
  lemma {:induction false} LookupAppend(fd: FormData, key: string, v: Value, other: string)
    ensures Lookup(fd + [(key, v)], other) ==
      (if other == key && Lookup(fd, key).None? then Some(v) else Lookup(fd, other))
  {
    if |fd| > 0 {
      LookupAppend(fd[1..], key, v, other);
      assert (fd + [(key, v)])[1..] == fd[1..] + [(key, v)];
    }
  }
}
