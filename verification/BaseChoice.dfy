/** Incremental syncs of a block device over the images of its snapshots: what the choice of
    the base decides. */
module BaseChoice {
  import opened Contents
  import opened Configuration
  import opened Protocol
  import opened RbdIterator
  import opened RbdTiling
  import opened RbdReplication
  import Replication
  import Success
  import Snapshots

  /** The image of each snapshot, by its time. */
  type Images = map<Snapshots.Time, seq<Byte>>

  /** Outside the extents of a diff the images of its two snapshots agree. */
  ghost predicate CoversDiff(exts: Extents, base: seq<Byte>, target: seq<Byte>) {
    forall x :: 0 <= x < |target| && !InUnion(exts, x) ==> ByteAt(base, x) == target[x]
  }

  /** The destination's device holds an image, as far as the new one goes. */
  ghost predicate HeldBefore(d: seq<Byte>, held: seq<Byte>, n: nat) {
    n <= |d| && forall x :: 0 <= x < n ==> d[x] == ByteAt(held, x)
  }

  /** The sync of `target` with the diff from `base`, to a device that holds `last`. */
  ghost predicate SyncJob(job: Job, img: Images, base: Snapshots.Time, target: Snapshots.Time,
                          last: Snapshots.Time, exts: Extents) {
    && DiffJob(job, false, exts) && base in img && target in img && last in img
    && File(job.src, DEVICE) == img[target] && CoversDiff(exts, img[base], img[target])
    && HeldBefore(File(job.dest0, DEVICE), img[last], |img[target]|)
  }

  /** A sync that returns no error puts the target's image on the device if and only if the
      base and what the device holds agree outside the extents. */
  lemma SyncReplicatesIff(job: Job, img: Images, base: Snapshots.Time, target: Snapshots.Time,
                          last: Snapshots.Time, exts: Extents, steps: seq<Step>)
    requires SyncJob(job, img, base, target, last, exts) && Valid(job, steps) && Succeeded(After(job, steps))
    ensures Holds(File(After(job, steps).dest, DEVICE), img[target], File(job.dest0, DEVICE)) <==>
              forall x :: 0 <= x < |img[target]| && !InUnion(exts, x) ==> ByteAt(img[base], x) == ByteAt(img[last], x)
  {
    IncrementalReplicatesIff(job, exts, steps);
    assert forall x :: 0 <= x < |img[target]| && !InUnion(exts, x) ==>
             File(job.src, DEVICE)[x] == ByteAt(img[base], x) && File(job.dest0, DEVICE)[x] == ByteAt(img[last], x);
  }

  /** So it always does when the base is the snapshot that was synced last. */
  lemma LastSyncedIsASafeBase(job: Job, img: Images, target: Snapshots.Time, last: Snapshots.Time,
                              exts: Extents, steps: seq<Step>)
    requires SyncJob(job, img, last, target, last, exts) && Valid(job, steps) && Succeeded(After(job, steps))
    ensures Holds(File(After(job, steps).dest, DEVICE), img[target], File(job.dest0, DEVICE))
  {
    SyncReplicatesIff(job, img, last, target, last, exts, steps);
  }

  /** Three snapshots of a device of two bytes: the first byte is changed and changed back,
      and the second changes with the third. */
  ghost function ThreeImages(): Images {
    map[1 := [0, 0], 2 := [1, 0], 3 := [0, 1]]
  }

  ghost function ThirdSync(): Job {
    Job(RBD_CONFIG, [Block(DEVICE, 1, 1, 2, false)], map[DEVICE := [0, 1]], map[DEVICE := [1, 0]])
  }

  lemma ThirdSyncIsASync()
    ensures SyncJob(ThirdSync(), ThreeImages(), 1, 3, 2, [Extent(1, 1)])
  {
    var job, exts := ThirdSync(), [Extent(1, 1)];
    ShippedConfigsAreSound(RBD_CONFIG);
    assert exts[1..] == [];
    assert Spans(false, 2, 0, exts) == [Piece(1, 1, false)];
    assert [Piece(1, 1, false)][1..] == [];
    assert Pieces(job, false, exts) == [Piece(1, 1, false)];
    assert job.blocks == Blocks(Pieces(job, false, exts), 2);
    assert forall x :: InUnion(exts, x) <==> x == 1;
  }

  /** An older base loses an update: with the snapshots of two syncs, the third sync takes
      the first snapshot as its base, returns no error, and the device does not hold the
      third image. */
  lemma OlderBaseLosesAnUpdate() returns (steps: seq<Step>)
    ensures SyncJob(ThirdSync(), ThreeImages(), 1, 3, 2, [Extent(1, 1)])
    ensures Valid(ThirdSync(), steps) && Succeeded(After(ThirdSync(), steps))
    ensures !Holds(File(After(ThirdSync(), steps).dest, DEVICE), ThreeImages()[3], File(ThirdSync().dest0, DEVICE))
  {
    var job, exts := ThirdSync(), [Extent(1, 1)];
    ThirdSyncIsASync();
    ShippedConfigsAreSound(RBD_CONFIG);
    DiffJobIsFaithful(job, false, exts);
    steps := Success.SuccessfulRunExists(job);
    SyncReplicatesIff(job, ThreeImages(), 1, 3, 2, exts, steps);
    assert !InUnion(exts, 0);
  }
}
