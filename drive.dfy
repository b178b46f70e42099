/**
 * The Google Drive storage folder ("the vault") as the publish step sees it:
 * the listing query and the delete call.
 */
module Drive {
  import opened Text
  import opened Shorts

  type FileId = string

  /** `pageSize` of the listing request: at most this many files come back. */
  const PageSize: nat := 100

  /** A file of the storage folder; `meta` is what its description attribute parses to. */
  datatype DriveFile = DriveFile(id: FileId, name: string, mimeType: string, trashed: bool, meta: MetaAttr)

  /** `mimeType contains 'video/' and trashed = false`. */
  predicate Listable(f: DriveFile)
  {
    Contains(f.mimeType, "video/") && !f.trashed
  }

  /** The files of the folder that match the query, in folder order. */
  function Matching(vault: seq<DriveFile>): seq<DriveFile>
  {
    if vault == [] then []
    else if Listable(vault[0]) then [vault[0]] + Matching(vault[1..])
    else Matching(vault[1..])
  }

  /** The query matches exactly the listable files of the folder. */
  lemma {:induction false} MatchingMembers(vault: seq<DriveFile>)
    ensures forall f :: f in Matching(vault) <==> f in vault && Listable(f)
    decreases |vault|
  {
    if vault != [] {
      MatchingMembers(vault[1..]);
      assert forall f :: f in vault <==> f == vault[0] || f in vault[1..];
    }
  }

  /**
   * The first page of the query's result: every file of it is a listable file of
   * the folder, there are at most `PageSize` of them, and it is empty exactly when
   * the folder holds no listable file.
   */
  function Listing(vault: seq<DriveFile>): (r: seq<DriveFile>)
    ensures |r| <= PageSize
    ensures forall f :: f in r ==> f in vault && Listable(f)
    ensures r == [] <==> forall f :: f in vault ==> !Listable(f)
    ensures |Matching(vault)| <= PageSize ==> r == Matching(vault)
  {
    MatchingMembers(vault);
    var m := Matching(vault);
    assert m != [] ==> m[0] in m;
    if |m| <= PageSize then m else m[..PageSize]
  }

  /** Drive file ids are unique within the folder. */
  predicate DistinctIds(vault: seq<DriveFile>)
  {
    forall i, j :: 0 <= i < j < |vault| ==> vault[i].id != vault[j].id
  }

  /** `drive.files.delete({ fileId: id })`: the folder without the file of that id. */
  function Remove(vault: seq<DriveFile>, id: FileId): seq<DriveFile>
  {
    if vault == [] then []
    else if vault[0].id == id then Remove(vault[1..], id)
    else [vault[0]] + Remove(vault[1..], id)
  }

  /** Deleting keeps exactly the files with another id, and never grows the folder. */
  lemma {:induction false} RemoveMembers(vault: seq<DriveFile>, id: FileId)
    ensures forall f :: f in Remove(vault, id) <==> f in vault && f.id != id
    ensures |Remove(vault, id)| <= |vault|
    decreases |vault|
  {
    if vault != [] {
      RemoveMembers(vault[1..], id);
      assert forall f :: f in vault <==> f == vault[0] || f in vault[1..];
    }
  }

  /** Deleting a file that is in the folder removes that one file and keeps the order of the rest. */
  lemma {:induction false} RemovePresent(vault: seq<DriveFile>, k: nat)
    requires DistinctIds(vault) && k < |vault|
    ensures Remove(vault, vault[k].id) == vault[..k] + vault[k + 1..]
    decreases k
  {
    var id := vault[k].id;
    var tail := vault[1..];
    if k == 0 {
      forall i | 0 <= i < |tail| ensures tail[i].id != id {
        assert tail[i] == vault[i + 1];
      }
      RemoveAbsent(tail, id);
      assert vault[..0] + vault[1..] == tail;
    } else {
      assert vault[0].id != id;
      assert DistinctIds(tail) by {
        forall i, j | 0 <= i < j < |tail| ensures tail[i].id != tail[j].id {
          assert tail[i] == vault[i + 1] && tail[j] == vault[j + 1];
        }
      }
      assert tail[k - 1] == vault[k];
      RemovePresent(tail, k - 1);
      assert Remove(vault, id) == [vault[0]] + Remove(tail, id);
      assert vault[..k] == [vault[0]] + tail[..k - 1];
      assert vault[k + 1..] == tail[k..];
    }
  }

  /** Deleting an id the folder does not hold changes nothing. */
  lemma {:induction false} RemoveAbsent(vault: seq<DriveFile>, id: FileId)
    requires forall i :: 0 <= i < |vault| ==> vault[i].id != id
    ensures Remove(vault, id) == vault
    decreases |vault|
  {
    if vault != [] {
      RemoveAbsent(vault[1..], id);
    }
  }

  /** Deleting keeps the ids unique. */
  lemma {:induction false} RemoveKeepsDistinct(vault: seq<DriveFile>, id: FileId)
    requires DistinctIds(vault)
    ensures DistinctIds(Remove(vault, id))
    decreases |vault|
  {
    if vault != [] {
      RemoveKeepsDistinct(vault[1..], id);
      RemoveMembers(vault[1..], id);
      var rest := Remove(vault[1..], id);
      if vault[0].id != id {
        forall f | f in rest ensures f.id != vault[0].id {
          var j :| 0 <= j < |vault[1..]| && vault[1..][j] == f;
          assert vault[j + 1] == f;
        }
      }
    }
  }
}
