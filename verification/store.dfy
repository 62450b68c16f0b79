/**
  The in-memory record store behind both the equipment and the user
  screens: the save handler either replaces records by id (when the
  submitted record has an id) or appends it under a fresh id, and the
  delete handler filters the collection by id. The equipment and user
  handlers are the same code over different record fields, so they share
  these definitions.
 */
module Store {
  import opened Records

  /** The update path of a save, `rs.map(e => e.id === item.id ? item : e)`:
      every record carrying the submitted id becomes the submitted record,
      in place, and every other record stays where it was. */
  function Replace<F>(rs: seq<Record<F>>, item: Record<F>): (r: seq<Record<F>>)
    ensures |r| == |rs|
    ensures forall i :: 0 <= i < |rs| && rs[i].id == item.id ==> r[i] == item
    ensures forall i :: 0 <= i < |rs| && rs[i].id != item.id ==> r[i] == rs[i]
    ensures forall i :: 0 <= i < |rs| ==> r[i].id == rs[i].id
  {
    if rs == [] then []
    else (if rs[0].id == item.id then [item] else [rs[0]]) + Replace(rs[1..], item)
  }

  /** The insert path of a save, `[...rs, { ...item, id: freshId }]`. */
  function Insert<F>(rs: seq<Record<F>>, item: Record<F>, freshId: string): (r: seq<Record<F>>)
    ensures |r| == |rs| + 1
    ensures r[..|rs|] == rs
    ensures r[|rs|] == Record(Some(freshId), item.fields)
  {
    rs + [item.(id := Some(freshId))]
  }

  /** A save: a record whose id is truthy updates in place, any other
      record is appended under `freshId`. */
  function Save<F>(rs: seq<Record<F>>, item: Record<F>, freshId: string): (r: seq<Record<F>>)
    ensures Truthy(item.id) ==> |r| == |rs|
    ensures Truthy(item.id) ==> forall i :: 0 <= i < |rs| ==> r[i] == (if rs[i].id == item.id then item else rs[i])
    ensures !Truthy(item.id) ==> r == rs + [Record(Some(freshId), item.fields)]
  {
    if Truthy(item.id) then Replace(rs, item) else Insert(rs, item, freshId)
  }

  /** A confirmed delete, `rs.filter(x => x.id !== id)`. */
  function Remove<F>(rs: seq<Record<F>>, id: Option<string>): (r: seq<Record<F>>)
    ensures |r| <= |rs|
    ensures forall i :: 0 <= i < |r| ==> r[i] in rs && r[i].id != id
    ensures forall i :: 0 <= i < |rs| && rs[i].id != id ==> rs[i] in r
  {
    if rs == [] then []
    else (if rs[0].id != id then [rs[0]] else []) + Remove(rs[1..], id)
  }

  /** Updating by an id that no record carries changes nothing. */
  lemma ReplaceAbsent<F>(rs: seq<Record<F>>, item: Record<F>)
    requires !HasId(rs, item.id)
    ensures Replace(rs, item) == rs
  {
    var r := Replace(rs, item);
    assert forall i :: 0 <= i < |rs| ==> r[i] == rs[i];
  }

  /** With unique ids, an update rewrites exactly the one record that
      carries the submitted id. */
  lemma ReplaceUnique<F>(rs: seq<Record<F>>, item: Record<F>, k: nat)
    requires UniqueIds(rs)
    requires k < |rs| && rs[k].id == item.id
    ensures Replace(rs, item) == rs[k := item]
  {
    var r := Replace(rs, item);
    forall i | 0 <= i < |rs|
      ensures r[i] == rs[k := item][i]
    {
      if i != k {
        assert rs[i].id != rs[k].id;
      }
    }
  }

  /** An update keeps the collection well formed: it rewrites records only
      where the id already matched, so the id column is unchanged. */
  lemma ReplaceWellFormed<F>(rs: seq<Record<F>>, item: Record<F>)
    requires WellFormed(rs)
    ensures WellFormed(Replace(rs, item))
  {
    var r := Replace(rs, item);
    forall i | 0 <= i < |r|
      ensures Truthy(r[i].id)
    {
      assert r[i].id == rs[i].id;
    }
    forall i, j | 0 <= i < |r| && 0 <= j < |r| && i != j
      ensures r[i].id != r[j].id
    {
      assert r[i].id == rs[i].id && r[j].id == rs[j].id;
    }
  }

  /** An insert keeps the collection well formed, provided the fresh id is
      non-empty and not already in use. Nothing in the dashboard checks the
      second condition: it is the caller's to establish. */
  lemma InsertWellFormed<F>(rs: seq<Record<F>>, item: Record<F>, freshId: string)
    requires WellFormed(rs)
    requires freshId != "" && !HasId(rs, Some(freshId))
    ensures WellFormed(Insert(rs, item, freshId))
  {
    var r := Insert(rs, item, freshId);
    forall i, j | 0 <= i < |r| && 0 <= j < |r| && i != j
      ensures r[i].id != r[j].id
    {
      if i < |rs| && j < |rs| {
        assert r[i] == rs[i] && r[j] == rs[j];
      } else if i < |rs| {
        assert r[i] == rs[i];
      } else {
        assert r[j] == rs[j];
      }
    }
  }

  /** Without its uniqueness condition an insert can break uniqueness:
      a fresh id equal to a stored one yields two records with that id. */
  lemma InsertStaleIdDuplicates<F>(rs: seq<Record<F>>, item: Record<F>, freshId: string)
    requires HasId(rs, Some(freshId))
    ensures !UniqueIds(Insert(rs, item, freshId))
  {
    var k :| 0 <= k < |rs| && rs[k].id == Some(freshId);
    var r := Insert(rs, item, freshId);
    assert r[k] == rs[k];
    assert r[k].id == r[|rs|].id;
  }

  /** Filtering distributes over concatenation, so survivors keep their
      relative order. */
  lemma {:induction false} RemoveAppend<F>(a: seq<Record<F>>, b: seq<Record<F>>, id: Option<string>)
    ensures Remove(a + b, id) == Remove(a, id) + Remove(b, id)
  {
    if a == [] {
      assert a + b == b;
    } else {
      assert (a + b)[0] == a[0];
      assert (a + b)[1..] == a[1..] + b;
      RemoveAppend(a[1..], b, id);
    }
  }

  /** Deleting an id that no record carries changes nothing. */
  lemma {:induction false} RemoveAbsent<F>(rs: seq<Record<F>>, id: Option<string>)
    requires !HasId(rs, id)
    ensures Remove(rs, id) == rs
  {
    if rs != [] {
      assert rs[0].id != id;
      assert !HasId(rs[1..], id) by {
        forall i | 0 <= i < |rs[1..]|
          ensures rs[1..][i].id != id
        {
          assert rs[1..][i] == rs[i + 1];
        }
      }
      RemoveAbsent(rs[1..], id);
      assert rs == [rs[0]] + rs[1..];
    }
  }

  /** With unique ids, the id at position `k` occurs nowhere before or
      after it. */
  lemma UniqueIdIsolated<F>(rs: seq<Record<F>>, k: nat)
    requires UniqueIds(rs)
    requires k < |rs|
    ensures !HasId(rs[..k], rs[k].id)
    ensures !HasId(rs[k + 1..], rs[k].id)
  {
    var pre, post := rs[..k], rs[k + 1..];
    forall i | 0 <= i < |pre|
      ensures pre[i].id != rs[k].id
    {
      assert pre[i] == rs[i];
    }
    forall i | 0 <= i < |post|
      ensures post[i].id != rs[k].id
    {
      assert post[i] == rs[k + 1 + i];
    }
  }

  /** With unique ids, deleting a stored id removes exactly that one
      record and leaves the others in order. */
  lemma RemoveUnique<F>(rs: seq<Record<F>>, k: nat)
    requires UniqueIds(rs)
    requires k < |rs|
    ensures Remove(rs, rs[k].id) == rs[..k] + rs[k + 1..]
    ensures |Remove(rs, rs[k].id)| == |rs| - 1
  {
    var id := rs[k].id;
    var pre, post := rs[..k], rs[k + 1..];
    assert rs == pre + ([rs[k]] + post);
    RemoveAppend(pre, [rs[k]] + post, id);
    RemoveAppend([rs[k]], post, id);
    assert Remove([rs[k]], id) == [];
    UniqueIdIsolated(rs, k);
    RemoveAbsent(pre, id);
    RemoveAbsent(post, id);
  }

  /** How far a delete shrinks the collection: by nothing when the id is
      absent, by exactly one record when ids are unique and it is present. */
  lemma RemoveLength<F>(rs: seq<Record<F>>, id: Option<string>)
    ensures !HasId(rs, id) ==> Remove(rs, id) == rs
    ensures UniqueIds(rs) && HasId(rs, id) ==> |Remove(rs, id)| == |rs| - 1
  {
    if UniqueIds(rs) && HasId(rs, id) {
      var k :| 0 <= k < |rs| && rs[k].id == id;
      RemoveUnique(rs, k);
    }
    if !HasId(rs, id) {
      RemoveAbsent(rs, id);
    }
  }

  /** A delete keeps the collection well formed. */
  lemma {:induction false} RemoveWellFormed<F>(rs: seq<Record<F>>, id: Option<string>)
    requires WellFormed(rs)
    ensures WellFormed(Remove(rs, id))
  {
    if rs != [] {
      var tail := rs[1..];
      assert WellFormed(tail) by {
        forall i | 0 <= i < |tail|
          ensures tail[i] == rs[i + 1]
        {
        }
      }
      RemoveWellFormed(tail, id);
      var rest := Remove(tail, id);
      if rs[0].id != id {
        var r := [rs[0]] + rest;
        assert r == Remove(rs, id);
        forall j | 0 <= j < |rest|
          ensures rest[j].id != rs[0].id
        {
          var m :| 0 <= m < |tail| && tail[m] == rest[j];
          assert tail[m] == rs[m + 1];
        }
        forall i, j | 0 <= i < |r| && 0 <= j < |r| && i != j
          ensures r[i].id != r[j].id
        {
          if i > 0 && j > 0 {
            assert r[i] == rest[i - 1] && r[j] == rest[j - 1];
          } else if i == 0 {
            assert r[j] == rest[j - 1];
          } else {
            assert r[i] == rest[i - 1];
          }
        }
        forall i | 0 <= i < |r|
          ensures Truthy(r[i].id)
        {
          if i > 0 {
            assert r[i] == rest[i - 1];
          }
        }
      } else {
        assert Remove(rs, id) == rest;
      }
    }
  }
}
