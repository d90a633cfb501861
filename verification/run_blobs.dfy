// The blobs that go into the bundle of a run: the sections its snapshots refer to, the manifests its frames name and the groups
// those name (packages/storage/src/run-bundle.ts).
module RunBlobs {
  import opened Wrappers
  import opened Base64
  import opened BeliefFrames
  import opened RunFiles

  function Ids(blobs: seq<Blob>): set<string> { set x | x in blobs :: x.id }

  // Blobs as they are stored, each once.
  ghost predicate Gathered(blobs: seq<Blob>, stored: map<string, seq<byte>>) {
    && (forall x :: x in blobs ==> x.id in stored && stored[x.id] == x.bytes)
    && (forall i, j :: 0 <= i < j < |blobs| ==> blobs[i].id != blobs[j].id)
  }

  lemma IdsMore(blobs: seq<Blob>, x: Blob)
    ensures Ids(blobs + [x]) == Ids(blobs) + {x.id}
  {
    assert (blobs + [x])[|blobs|] == x;
    forall y | y in blobs ensures y in blobs + [x] {}
  }

  lemma GatheredIds(blobs: seq<Blob>, stored: map<string, seq<byte>>)
    requires Gathered(blobs, stored)
    ensures Ids(blobs) <= stored.Keys
  {
  }

  // Gathers a blob, when it is not there already; nothing when it is not stored.
  method Gather(stored: map<string, seq<byte>>, blobs: seq<Blob>, id: string) returns (r: Option<seq<Blob>>)
    requires Gathered(blobs, stored)
    ensures r.Some? <==> id in stored
    ensures r.Some? ==> Gathered(r.value, stored) && Ids(r.value) == Ids(blobs) + {id}
  {
    GatheredIds(blobs, stored);
    if id in Ids(blobs) { return Some(blobs); }
    if id !in stored { return None; }
    IdsMore(blobs, Blob(id, stored[id]));
    return Some(blobs + [Blob(id, stored[id])]);
  }

  function SetOf(ids: seq<string>): set<string> { set id | id in ids }

  method GatherAll(stored: map<string, seq<byte>>, blobs: seq<Blob>, ids: seq<string>) returns (r: Option<seq<Blob>>)
    requires Gathered(blobs, stored)
    ensures r.Some? <==> SetOf(ids) <= stored.Keys
    ensures r.Some? ==> Gathered(r.value, stored) && Ids(r.value) == Ids(blobs) + SetOf(ids)
  {
    hide Gathered, Ids;
    var out := blobs;
    for k := 0 to |ids|
      invariant Gathered(out, stored) && SetOf(ids[..k]) <= stored.Keys
      invariant Ids(out) == Ids(blobs) + SetOf(ids[..k])
    {
      var next := Gather(stored, out, ids[k]);
      if next.None? { assert ids[k] in SetOf(ids); return None; }
      assert ids[..k + 1] == ids[..k] + [ids[k]];
      out := next.value;
    }
    assert ids[..|ids|] == ids;
    return Some(out);
  }

  // ---- the sections ------------------------------------------------------------------------------------------------------------------------------

  function SectionIds(snapshots: seq<Snapshot>, sections: seq<byte> -> seq<string>): set<string> {
    set s, x | s in snapshots && x in sections(s.bytes) :: x
  }

  // The sections of one snapshot that are stored; others are passed over.
  method GatherStored(stored: map<string, seq<byte>>, blobs: seq<Blob>, ids: seq<string>) returns (out: seq<Blob>)
    requires Gathered(blobs, stored)
    ensures Gathered(out, stored) && Ids(out) == Ids(blobs) + (SetOf(ids) * stored.Keys)
  {
    hide Gathered, Ids;
    out := blobs;
    for k := 0 to |ids|
      invariant Gathered(out, stored) && Ids(out) == Ids(blobs) + (SetOf(ids[..k]) * stored.Keys)
    {
      assert SetOf(ids[..k + 1]) == SetOf(ids[..k]) + {ids[k]} by { assert ids[..k + 1] == ids[..k] + [ids[k]]; }
      var next := Gather(stored, out, ids[k]);
      if next.Some? { out := next.value; }
    }
    assert ids[..|ids|] == ids;
  }

  method GatherSections(stored: map<string, seq<byte>>, snapshots: seq<Snapshot>, sections: seq<byte> -> seq<string>)
    returns (out: seq<Blob>)
    ensures Gathered(out, stored) && Ids(out) == SectionIds(snapshots, sections) * stored.Keys
  {
    out := [];
    assert Gathered(out, stored) && Ids(out) == {};
    hide Gathered, Ids;
    for k := 0 to |snapshots|
      invariant Gathered(out, stored) && Ids(out) == SectionIds(snapshots[..k], sections) * stored.Keys
    {
      OneSnapshotMore(snapshots, k, sections);
      out := GatherStored(stored, out, sections(snapshots[k].bytes));
    }
    assert snapshots[..|snapshots|] == snapshots;
  }

  lemma OneSnapshotMore(snapshots: seq<Snapshot>, k: nat, sections: seq<byte> -> seq<string>)
    requires k < |snapshots|
    ensures SectionIds(snapshots[..k + 1], sections) == SectionIds(snapshots[..k], sections) + SetOf(sections(snapshots[k].bytes))
  {
    assert snapshots[..k + 1] == snapshots[..k] + [snapshots[k]];
  }

  // ---- the manifests and their groups ----------------------------------------------------------------------------------------------------------------

  // The groups the blob of a frame names, when it is a manifest.
  function GroupsOf(stored: map<string, seq<byte>>, f: Frame, groups: seq<byte> -> Option<seq<string>>): set<string> {
    if f.blobId.Some? && f.blobId.value in stored then SetOf(groups(stored[f.blobId.value]).GetOr([])) else {}
  }

  // Whether the blob of a frame is opened: it is no section, and was not there before as the blob of another frame or as a group of
  // one that was opened.
  ghost predicate Opens(stored: map<string, seq<byte>>, fs: seq<Frame>, have: set<string>, groups: seq<byte> -> Option<seq<string>>, k: nat)
    requires k < |fs|
    decreases k
  {
    && fs[k].blobId.Some? && fs[k].blobId.value !in have
    && forall j :: 0 <= j < k ==>
         fs[j].blobId != fs[k].blobId && !(Opens(stored, fs, have, groups, j) && fs[k].blobId.value in GroupsOf(stored, fs[j], groups))
  }

  // What comes with the first n frames: what was there, their blobs, and the groups of those opened.
  ghost predicate Comes(stored: map<string, seq<byte>>, fs: seq<Frame>, have: set<string>, groups: seq<byte> -> Option<seq<string>>, n: nat,
                        x: string)
    requires n <= |fs|
  {
    x in have || exists k: nat :: k < n && Brings(stored, fs, have, groups, k, x)
  }

  ghost predicate Brings(stored: map<string, seq<byte>>, fs: seq<Frame>, have: set<string>, groups: seq<byte> -> Option<seq<string>>, k: nat,
                         x: string)
    requires k < |fs|
  {
    fs[k].blobId == Some(x) || (Opens(stored, fs, have, groups, k) && x in GroupsOf(stored, fs[k], groups))
  }

  // The blob of a frame is stored, and so are its groups when it is opened.
  ghost predicate Whole(stored: map<string, seq<byte>>, fs: seq<Frame>, have: set<string>, groups: seq<byte> -> Option<seq<string>>, k: nat)
    requires k < |fs|
  {
    && (fs[k].blobId.Some? ==> fs[k].blobId.value in stored)
    && (Opens(stored, fs, have, groups, k) ==> GroupsOf(stored, fs[k], groups) <= stored.Keys)
  }

  // So is every frame's.
  ghost predicate AllWhole(stored: map<string, seq<byte>>, fs: seq<Frame>, have: set<string>, groups: seq<byte> -> Option<seq<string>>) {
    forall k :: 0 <= k < |fs| ==> Whole(stored, fs, have, groups, k)
  }

  // Gathers the blobs of the frames and the groups of those opened, and nothing else; fails just when one is not stored.
  method GatherFrames(stored: map<string, seq<byte>>, fs: seq<Frame>, blobs: seq<Blob>, groups: seq<byte> -> Option<seq<string>>)
    returns (r: Option<seq<Blob>>)
    requires Gathered(blobs, stored)
    ensures r.Some? <==> AllWhole(stored, fs, Ids(blobs), groups)
    ensures r.Some? ==> Gathered(r.value, stored)
    ensures r.Some? ==> forall x :: x in Ids(r.value) <==> Comes(stored, fs, Ids(blobs), groups, |fs|, x)
  {
    hide Gathered, Ids, Opens, GroupsOf, Comes, Whole;
    var out := blobs;
    NothingComes(stored, fs, Ids(blobs), groups);
    for k := 0 to |fs|
      invariant Gathered(out, stored)
      invariant forall j :: 0 <= j < k ==> Whole(stored, fs, Ids(blobs), groups, j)
      invariant forall x :: x in Ids(out) <==> Comes(stored, fs, Ids(blobs), groups, k, x)
    {
      OneFrameMore(stored, fs, Ids(blobs), groups, k, Ids(out));
      GatheredIds(out, stored);
      if fs[k].blobId.None? || fs[k].blobId.value in Ids(out) { continue; }
      var manifest := Gather(stored, out, fs[k].blobId.value);
      if manifest.None? { assert !Whole(stored, fs, Ids(blobs), groups, k); return None; }
      var names := groups(stored[fs[k].blobId.value]).GetOr([]);
      GroupsAre(stored, fs[k], groups);
      var all := GatherAll(stored, manifest.value, names);
      if all.None? { assert !Whole(stored, fs, Ids(blobs), groups, k); return None; }
      out := all.value;
    }
    return Some(out);
  }

  lemma NothingComes(stored: map<string, seq<byte>>, fs: seq<Frame>, have: set<string>, groups: seq<byte> -> Option<seq<string>>)
    ensures forall x :: x in have <==> Comes(stored, fs, have, groups, 0, x)
  {
  }

  lemma GroupsAre(stored: map<string, seq<byte>>, f: Frame, groups: seq<byte> -> Option<seq<string>>)
    requires f.blobId.Some? && f.blobId.value in stored
    ensures GroupsOf(stored, f, groups) == SetOf(groups(stored[f.blobId.value]).GetOr([]))
  {
  }

  // A frame is opened just when its blob has not come yet; then it and its groups come.
  lemma OneFrameMore(stored: map<string, seq<byte>>, fs: seq<Frame>, have: set<string>, groups: seq<byte> -> Option<seq<string>>, k: nat,
                     ids: set<string>)
    requires k < |fs| && forall x :: x in ids <==> Comes(stored, fs, have, groups, k, x)
    ensures fs[k].blobId.None? || fs[k].blobId.value in ids ==>
      && (forall x :: x in ids <==> Comes(stored, fs, have, groups, k + 1, x))
      && (ids <= stored.Keys ==> Whole(stored, fs, have, groups, k))
    ensures fs[k].blobId.Some? && fs[k].blobId.value !in ids ==>
      && (forall x :: x in ids + {fs[k].blobId.value} + GroupsOf(stored, fs[k], groups) <==> Comes(stored, fs, have, groups, k + 1, x))
      && (Whole(stored, fs, have, groups, k) <==> fs[k].blobId.value in stored && GroupsOf(stored, fs[k], groups) <= stored.Keys)
  {
    OpensWhenNew(stored, fs, have, groups, k);
    hide Opens, GroupsOf, Comes;
    forall x ensures Comes(stored, fs, have, groups, k + 1, x) <==> Comes(stored, fs, have, groups, k, x) || Brings(stored, fs, have, groups, k, x) {
      ComesMore(stored, fs, have, groups, k, x);
    }
    if fs[k].blobId.Some? && fs[k].blobId.value !in ids {
      var more := ids + {fs[k].blobId.value} + GroupsOf(stored, fs[k], groups);
      forall x ensures x in more <==> x in ids || Brings(stored, fs, have, groups, k, x) {}
    } else {
      assert !Opens(stored, fs, have, groups, k);
      forall x ensures Brings(stored, fs, have, groups, k, x) ==> x in ids {}
    }
  }

  lemma ComesMore(stored: map<string, seq<byte>>, fs: seq<Frame>, have: set<string>, groups: seq<byte> -> Option<seq<string>>, k: nat,
                  x: string)
    requires k < |fs|
    ensures Comes(stored, fs, have, groups, k + 1, x) <==> Comes(stored, fs, have, groups, k, x) || Brings(stored, fs, have, groups, k, x)
  {
    hide Brings;
  }

  lemma OpensWhenNew(stored: map<string, seq<byte>>, fs: seq<Frame>, have: set<string>, groups: seq<byte> -> Option<seq<string>>, k: nat)
    requires k < |fs|
    ensures Opens(stored, fs, have, groups, k) <==> fs[k].blobId.Some? && !Comes(stored, fs, have, groups, k, fs[k].blobId.value)
  {
    hide GroupsOf;
    if fs[k].blobId.Some? {
      var m := fs[k].blobId.value;
      if !Opens(stored, fs, have, groups, k) && m !in have {
        var j :| 0 <= j < k && (fs[j].blobId == fs[k].blobId || (Opens(stored, fs, have, groups, j) && m in GroupsOf(stored, fs[j], groups)));
        assert Brings(stored, fs, have, groups, j, m);
      }
    }
  }

  // ---- the groups that are left out ------------------------------------------------------------------------------------------------------------------

  // The blob of the frame came as a section of a snapshot, or as a group of another.
  ghost predicate CameOtherwise(stored: map<string, seq<byte>>, fs: seq<Frame>, have: set<string>, groups: seq<byte> -> Option<seq<string>>, k: nat)
    requires k < |fs|
  {
    && fs[k].blobId.Some?
    && var m := fs[k].blobId.value;
      m in have || exists j :: 0 <= j < |fs| && Opens(stored, fs, have, groups, j) && m in GroupsOf(stored, fs[j], groups)
  }

  // A group of a frame's manifest is left out just when no opened manifest names it and it is no section and no manifest itself; and
  // that is so only of a manifest that came as a section, or as a group of another.
  lemma GroupLeftOut(stored: map<string, seq<byte>>, fs: seq<Frame>, have: set<string>, groups: seq<byte> -> Option<seq<string>>, k: nat,
                     x: string)
    requires k < |fs| && x in GroupsOf(stored, fs[k], groups)
    ensures !Comes(stored, fs, have, groups, |fs|, x) ==> CameOtherwise(stored, fs, have, groups, k)
    ensures !Comes(stored, fs, have, groups, |fs|, x) <==>
      && x !in have
      && forall j :: 0 <= j < |fs| ==>
           && fs[j].blobId != Some(x)
           && (x in GroupsOf(stored, fs[j], groups) ==> CameOtherwise(stored, fs, have, groups, j) && !Opens(stored, fs, have, groups, j))
  {
    hide Opens, GroupsOf, CameOtherwise;
    assert !Comes(stored, fs, have, groups, |fs|, x) <==> x !in have && forall j: nat :: j < |fs| ==> !Brings(stored, fs, have, groups, j, x);
    if forall j: nat :: j < |fs| ==> !Brings(stored, fs, have, groups, j, x) {
      forall j | 0 <= j < |fs| && x in GroupsOf(stored, fs[j], groups) ensures !Opens(stored, fs, have, groups, j) {
        assert !Brings(stored, fs, have, groups, j, x);
      }
      forall j | 0 <= j < |fs| && x in GroupsOf(stored, fs[j], groups) ensures CameOtherwise(stored, fs, have, groups, j) {
        NotOpened(stored, fs, have, groups, j, x);
      }
      forall j | 0 <= j < |fs| ensures fs[j].blobId != Some(x) { assert !Brings(stored, fs, have, groups, j, x); }
    }
  }

  lemma NotOpened(stored: map<string, seq<byte>>, fs: seq<Frame>, have: set<string>, groups: seq<byte> -> Option<seq<string>>, k: nat, x: string)
    requires k < |fs| && x in GroupsOf(stored, fs[k], groups)
    requires forall j :: 0 <= j < |fs| && x in GroupsOf(stored, fs[j], groups) ==> !Opens(stored, fs, have, groups, j)
    ensures CameOtherwise(stored, fs, have, groups, k)
  {
    if j :| 0 <= j < k && fs[j].blobId == fs[k].blobId {
      NotOpened(stored, fs, have, groups, j, x);
    } else {
      assert !Opens(stored, fs, have, groups, k);
    }
  }

  // A keyframe whose manifest is a section of a snapshot too: it is there, and its group is not.
  lemma GroupLost(m: string, g: string, bytes: seq<byte>, groups: seq<byte> -> Option<seq<string>>, agentId: string)
    requires m != g && groups(bytes) == Some([g])
    ensures var f := Frame(agentId, 0, 0, 0.0, true, [], Some(m), None);
      var stored := map[m := bytes, g := []];
      && g in GroupsOf(stored, f, groups)
      && Whole(stored, [f], {m}, groups, 0)
      && Comes(stored, [f], {m}, groups, 1, m) && !Comes(stored, [f], {m}, groups, 1, g)
  {
  }
}
