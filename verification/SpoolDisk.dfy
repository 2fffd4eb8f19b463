/** One spool transaction on disk: its directory, the names the directory may turn out to have
    after a power loss, and what of its files survives one. */
module SpoolDisk {
  import opened Bytes

  /** The two objects that one call of `prepare_archive` makes of a batch. */
  datatype Sealed = Sealed(media: Bytes, metadata: Bytes)

  predicate ValidSealed(s: Sealed) { s.media != [] && s.metadata != [] }

  /** SHA-256, taken to be free of collisions. */
  datatype Digest = Digest(of: Bytes)

  datatype Manifest = Manifest(mediaSize: nat, metadataSize: nat, mediaDigest: Digest, metadataDigest: Digest)

  function ManifestOf(s: Sealed): Manifest {
    Manifest(|s.media|, |s.metadata|, Digest(s.media), Digest(s.metadata))
  }

  /** `entry.json`: a manifest, or bytes that do not parse as one. */
  datatype Text = Garbage | Text(manifest: Manifest)

  /** `synced`: the content was fsynced. `linked`: the directory entry is visible; an unlinked file
      may come back until its directory is fsynced. */
  datatype File<T> = Missing | File(content: T, synced: bool, linked: bool)

  predicate Visible<T>(f: File<T>) { f.File? && f.linked }

  predicate Firm<T>(f: File<T>) { Visible(f) && f.synced }

  function Unlinked<T>(f: File<T>): File<T> {
    if f.File? then f.(linked := false) else f
  }

  /** `of` is the sealing that the directory was made for. `listed`: the directory itself was
      fsynced after its last change. */
  datatype Dir = Dir(of: Sealed, media: File<Bytes>, metadata: File<Bytes>, manifest: File<Text>, listed: bool)

  function FreshDir(s: Sealed): Dir { Dir(s, Missing, Missing, Missing, false) }

  function Emptied(d: Dir): Dir {
    d.(media := Unlinked(d.media), metadata := Unlinked(d.metadata), manifest := Unlinked(d.manifest), listed := false)
  }

  /** `_load_entry`: the manifest parses, and both files are there with the sizes it gives. The
      digests are not looked at. */
  predicate Loads(d: Dir) {
    && Visible(d.manifest) && d.manifest.content.Text?
    && Visible(d.media) && d.manifest.content.manifest.mediaSize == |d.media.content| > 0
    && Visible(d.metadata) && d.manifest.content.manifest.metadataSize == |d.metadata.content| > 0
  }

  predicate Readable(d: Dir) { Visible(d.media) && Visible(d.metadata) }

  function Contents(d: Dir): Sealed
    requires Readable(d)
  {
    Sealed(d.media.content, d.metadata.content)
  }

  /** The digests that `_file_chunks` compares while it streams the files out. */
  predicate DigestsMatch(m: Manifest, d: Dir)
    requires Readable(d)
  {
    m.mediaDigest == Digest(d.media.content) && m.metadataDigest == Digest(d.metadata.content)
  }

  // ---- The names a directory goes through ---------------------------------

  /** No directory, `id.partial`, `id`, or `.id.committed`. */
  datatype Name = Nowhere | Partial | Final | Committed

  /** A removed directory that a power loss may bring back under one of `names`. */
  datatype Wreck = Wreck(dir: Dir, names: set<Name>)

  /** `name` is what the running system sees; after a power loss it may be any of `names`, or a
      wreck, until the parent directory is fsynced. */
  datatype Slot = Slot(name: Name, dir: Dir, names: set<Name>, wrecks: set<Wreck>)

  predicate Settled(s: Slot) { s.names == {s.name} && s.wrecks == {} }

  /** The parent directory has been fsynced, or the kernel has written it back. */
  function Settle(s: Slot): Slot { s.(names := {s.name}, wrecks := {}) }

  function TakesName(s: Slot, name: Name): Slot { s.(name := name, names := s.names + {name}) }

  function RemovedDir(s: Slot): Slot {
    Slot(Nowhere, s.dir, {Nowhere}, s.wrecks + {Wreck(s.dir, s.names)})
  }

  // ---- Power loss ---------------------------------------------------------

  predicate EntryLost<T>(f: File<T>, listed: bool) { f.Missing? || !listed || !f.linked }

  predicate EntryKept<T>(f: File<T>, listed: bool) { f.File? && (listed ==> f.linked) }

  /** Contents that were not fsynced may come back as anything. */
  predicate BytesAfterLoss(f: File<Bytes>, listed: bool, f': File<Bytes>) {
    if f'.Missing? then EntryLost(f, listed)
    else EntryKept(f, listed) && Firm(f') && (f.synced ==> f'.content == f.content)
  }

  /** A torn manifest does not parse. */
  predicate TextAfterLoss(f: File<Text>, listed: bool, f': File<Text>) {
    if f'.Missing? then EntryLost(f, listed)
    else EntryKept(f, listed) && Firm(f') && (f'.content == f.content || (!f.synced && f'.content == Garbage))
  }

  predicate DirAfterLoss(d: Dir, d': Dir) {
    && d'.of == d.of && d'.listed
    && BytesAfterLoss(d.media, d.listed, d'.media)
    && BytesAfterLoss(d.metadata, d.listed, d'.metadata)
    && TextAfterLoss(d.manifest, d.listed, d'.manifest)
  }

  /** One directory of a slot came back under one of the names it may have. */
  predicate CameBack(d: Dir, names: set<Name>, s': Slot) {
    s'.name in names && (s'.name != Nowhere ==> DirAfterLoss(d, s'.dir))
  }

  predicate SlotAfterLoss(s: Slot, s': Slot) {
    && Settled(s')
    && (s'.name == Nowhere ==> s'.dir == s.dir)
    && (CameBack(s.dir, s.names, s') || exists w :: w in s.wrecks && CameBack(w.dir, w.names, s'))
  }

  // ---- What the write order buys ------------------------------------------

  /** A manifest that parses describes the sealing the directory was made for, and any data file
      beside it holds exactly that sealing's bytes, safely on disk. */
  predicate SoundDir(d: Dir) {
    && ValidSealed(d.of)
    && (d.manifest.File? && d.manifest.content.Text? ==>
          && d.manifest.content.manifest == ManifestOf(d.of)
          && (d.media.File? ==> d.media.synced && d.media.content == d.of.media)
          && (d.metadata.File? ==> d.metadata.synced && d.metadata.content == d.of.metadata))
  }

  /** All three files complete and durable. */
  predicate Full(d: Dir) {
    && ValidSealed(d.of) && d.listed
    && d.media == File(d.of.media, true, true)
    && d.metadata == File(d.of.metadata, true, true)
    && d.manifest == File(Text(ManifestOf(d.of)), true, true)
  }

  /** A directory in the middle of `_persist`: each file is begun only after the one before it is
      durable. */
  predicate Filling(d: Dir) {
    && ValidSealed(d.of)
    && (d.media.File? ==> d.media.linked && (d.media.synced ==> d.media.content == d.of.media))
    && (d.metadata.File? ==>
          && d.metadata.linked && Firm(d.media)
          && (d.metadata.synced ==> d.metadata.content == d.of.metadata))
    && (d.manifest.File? ==>
          && d.manifest.linked && Firm(d.media) && Firm(d.metadata)
          && (d.manifest.content.Text? ==> d.manifest.content.manifest == ManifestOf(d.of))
          && (d.manifest.synced ==> d.manifest.content.Text?))
  }

  predicate SoundSlot(s: Slot) {
    SoundDir(s.dir) && forall w :: w in s.wrecks ==> SoundDir(w.dir)
  }

  /** Every directory that a power loss may leave was made for `of`. */
  predicate OnlyOf(s: Slot, of: Sealed) {
    s.dir.of == of && forall w :: w in s.wrecks ==> w.dir.of == of
  }

  /** Complete under its final name, and no power loss changes that. */
  predicate Durable(s: Slot, of: Sealed) {
    Settled(s) && s.name == Final && Full(s.dir) && s.dir.of == of
  }

  /** What loads is exact: sizes alone are enough, because of the order of the writes. */
  lemma {:induction false} LoadedIsExact(d: Dir)
    requires SoundDir(d) && Loads(d)
    ensures Readable(d) && Contents(d) == d.of
    ensures d.manifest.content.manifest == ManifestOf(d.of) && DigestsMatch(ManifestOf(d.of), d)
  {
  }

  /** No file of another length passes in the place of one that loads: one that was cut short is retained. */
  lemma {:induction false} OtherLengthsDoNotLoad(d: Dir, f: File<Bytes>)
    requires Loads(d) && f.File?
    ensures |f.content| != |d.media.content| ==> !Loads(d.(media := f))
    ensures |f.content| != |d.metadata.content| ==> !Loads(d.(metadata := f))
  {
  }

  lemma {:induction false} FullLoads(d: Dir)
    requires Full(d)
    ensures SoundDir(d) && Loads(d)
  {
  }

  lemma {:induction false} LossKeepsSound(s: Slot, s': Slot)
    requires SoundSlot(s) && SlotAfterLoss(s, s')
    ensures SoundSlot(s')
    ensures s'.dir.of == s.dir.of || exists w :: w in s.wrecks && w.dir.of == s'.dir.of
  {
  }

  lemma {:induction false} LossKeepsDurable(s: Slot, s': Slot, of: Sealed)
    requires Durable(s, of) && SlotAfterLoss(s, s')
    ensures Durable(s', of)
  {
  }
}
