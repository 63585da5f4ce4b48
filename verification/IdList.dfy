/** Lists of session IDs, edited in place by the Router Advertisement wheel and the accounting
    buckets. */
module IdList {
  import opened Collections

  function RemoveFirst(ids: seq<string>, id: string): seq<string> {
    if ids == [] then []
    else if ids[0] == id then ids[1..]
    else [ids[0]] + RemoveFirst(ids[1..], id)
  }

  lemma {:induction false} RemoveFirstIs(ids: seq<string>, id: string)
    requires Distinct(ids)
    ensures forall x :: x in RemoveFirst(ids, id) <==> x in ids && x != id
    ensures Distinct(RemoveFirst(ids, id))
  {
    if ids != [] {
      if ids[0] == id {
        assert forall x :: x in ids[1..] <==> x in ids && x != id;
      } else {
        RemoveFirstIs(ids[1..], id);
        var rest := RemoveFirst(ids[1..], id);
        assert ids[0] !in rest;
        assert forall j :: 0 < j < |rest| + 1 ==> ([ids[0]] + rest)[j] == rest[j - 1];
      }
    }
  }

  lemma {:induction false} RemoveFirstKeeps(ids: seq<string>, id: string, x: string)
    requires x != id
    ensures x in RemoveFirst(ids, id) <==> x in ids
  {
    if ids != [] && ids[0] != id {
      RemoveFirstKeeps(ids[1..], id, x);
    }
  }

  lemma {:induction false} RemoveFirstAt(ids: seq<string>, id: string, i: nat)
    requires i < |ids| && ids[i] == id && id !in ids[..i]
    ensures RemoveFirst(ids, id) == ids[..i] + ids[i + 1..]
  {
    if i == 0 {
      assert ids[..0] + ids[1..] == ids[1..];
    } else {
      assert ids[0] in ids[..i];
      assert ids[1..][..i - 1] == ids[1..i] && ids[1..][i..] == ids[i + 1..];
      assert forall x :: x in ids[1..i] ==> x in ids[..i];
      RemoveFirstAt(ids[1..], id, i - 1);
      assert [ids[0]] + ids[1..i] == ids[..i];
    }
  }

  lemma {:induction false} RemoveFirstAbsent(ids: seq<string>, id: string)
    requires id !in ids
    ensures RemoveFirst(ids, id) == ids
  {
    if ids != [] {
      assert ids[0] in ids;
      RemoveFirstAbsent(ids[1..], id);
      assert [ids[0]] + ids[1..] == ids;
    }
  }

  /** The splice loop both components write out. */
  method RemoveOne(ids: seq<string>, id: string) returns (r: seq<string>)
    ensures r == RemoveFirst(ids, id)
  {
    for i := 0 to |ids|
      invariant id !in ids[..i]
    {
      if ids[i] == id {
        RemoveFirstAt(ids, id, i);
        return ids[..i] + ids[i + 1..];
      }
    }
    RemoveFirstAbsent(ids, id);
    r := ids;
  }

  /** The scan both components write out before they append. */
  method Contains(ids: seq<string>, id: string) returns (found: bool)
    ensures found <==> id in ids
  {
    for i := 0 to |ids|
      invariant id !in ids[..i]
    {
      if ids[i] == id {
        return true;
      }
    }
    found := false;
  }
}
