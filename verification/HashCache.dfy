/**
 The file store's hash cache over a disk that changes under it.

 Time is real time in nanoseconds. A path's history is its changes, each a new file or the path's removal. The one
 thing asked of the file system is that a new file's ctime lags the real time of the change by at most the trust
 margin; its mtime and size may be anything. Contents and hashes are numbers, and hashing is a function parameter.
 */
module HashCache {
  datatype Option<T> = None | Some(value: T)

  type Path = string

  datatype File = File(mtime: int, ctime: int, size: nat, content: nat)

  datatype Change = Change(time: int, file: Option<File>)

  datatype Hashed = Hashed(mtime: int, ctime: int, size: nat, sha: nat)

  const TRUST_MARGIN := 2_000_000_000

  // By how much a ctime may lag the real time of the change.
  const CLOCK_LAG := 2_000_000_000

  predicate UnchangedSinceHashed(cached: Hashed, st: File) {
    st.mtime == cached.mtime && st.ctime == cached.ctime && st.size == cached.size
  }

  predicate OldEnoughToCache(st: File, walkStart: int) {
    (if st.mtime > st.ctime then st.mtime else st.ctime) < walkStart - TRUST_MARGIN
  }

  // The file at the path after the changes.
  function Latest(changes: seq<Change>): Option<File> {
    if changes == [] then None else changes[|changes| - 1].file
  }

  predicate Stamped(changes: seq<Change>, now: int) {
    forall k | 0 <= k < |changes| ::
      && changes[k].time <= now
      && (changes[k].file.Some? ==> changes[k].file.value.ctime >= changes[k].time - CLOCK_LAG)
  }

  // The path has gone on from one history to another, with changes no earlier than `since`.
  predicate Grew(before: seq<Change>, after: seq<Change>, since: int) {
    before <= after && forall k | |before| <= k < |after| :: after[k].time >= since
  }

  lemma GrewOn(a: seq<Change>, b: seq<Change>, c: seq<Change>, since: int, later: int)
    requires Grew(a, b, since) && Grew(b, c, later) && since <= later
    ensures Grew(a, c, since) && (c == a ==> b == a)
  {}

  // What hashing the file again would give.
  function Rehash(hash: nat -> nat, changes: seq<Change>): Option<nat> {
    if Latest(changes).Some? then Some(hash(Latest(changes).value.content)) else None
  }

  function Lookup(out: map<Path, nat>, path: Path): Option<nat> { if path in out then Some(out[path]) else None }

  /**
   An entry is sound when it agrees with the file at the path, if it matches its stamps, and is too old to match any
   file that is still to come.
   */
  predicate Sound(hash: nat -> nat, e: Hashed, changes: seq<Change>, now: int) {
    && e.ctime < now - TRUST_MARGIN
    && (Latest(changes).Some? && UnchangedSinceHashed(e, Latest(changes).value) ==>
          e.sha == hash(Latest(changes).value.content))
  }

  // A change makes a sound entry stop matching.
  lemma ChangeKeepsSound(hash: nat -> nat, e: Hashed, changes: seq<Change>, now: int, change: Change)
    requires Sound(hash, e, changes, now) && change.time == now && Stamped(changes + [change], now)
    ensures Sound(hash, e, changes + [change], now)
    ensures change.file.Some? ==> !UnchangedSinceHashed(e, change.file.value)
  {
    assert (changes + [change])[|changes|] == change;
  }

  /**
   An entry made from a file's stamps and a hash is sound when the stamps are old enough for a walk that began before
   they were read, and the hash is the file's unless the path has changed since.
   */
  lemma EntryIsSound(hash: nat -> nat, st: File, walkStart: int, before: seq<Change>, read: int, after: seq<Change>,
      now: int, sha: nat)
    requires Latest(before) == Some(st) && Grew(before, after, read) && walkStart <= read <= now && Stamped(after, now)
    requires OldEnoughToCache(st, walkStart)
    requires after == before ==> sha == hash(st.content)
    ensures Sound(hash, Hashed(st.mtime, st.ctime, st.size, sha), after, now)
  {
    if after != before {
      var last := after[|after| - 1];
      assert last.file.Some? ==> last.file.value.ctime >= last.time - CLOCK_LAG;
    }
  }

  function HistoryOn(disk: map<Path, seq<Change>>, path: Path): seq<Change> { if path in disk then disk[path] else [] }

  // Every path has gone on from one disk to another, with changes no earlier than the first.
  ghost predicate Passed(before: map<Path, seq<Change>>, since: int, after: map<Path, seq<Change>>, now: int) {
    since <= now && forall path :: Grew(HistoryOn(before, path), HistoryOn(after, path), since)
  }

  lemma Stayed(disk: map<Path, seq<Change>>, since: int, now: int)
    requires since <= now
    ensures Passed(disk, since, disk, now)
  {}

  lemma PassedOn(
      a: map<Path, seq<Change>>, s: int, b: map<Path, seq<Change>>, t: int, c: map<Path, seq<Change>>, u: int)
    requires Passed(a, s, b, t) && Passed(b, t, c, u)
    ensures Passed(a, s, c, u)
    ensures forall path | HistoryOn(c, path) == HistoryOn(a, path) :: HistoryOn(b, path) == HistoryOn(a, path)
  {
    hide Grew, HistoryOn;
    forall path
      ensures Grew(HistoryOn(a, path), HistoryOn(c, path), s)
      ensures HistoryOn(c, path) == HistoryOn(a, path) ==> HistoryOn(b, path) == HistoryOn(a, path)
    {
      GrewOn(HistoryOn(a, path), HistoryOn(b, path), HistoryOn(c, path), s, t);
    }
  }

  lemma LaterKeepsSound(hash: nat -> nat, e: Hashed, changes: seq<Change>, now: int, later: int)
    requires Sound(hash, e, changes, now) && now <= later
    ensures Sound(hash, e, changes, later)
  {}

  /**
   The margin is needed: when a change may stamp a ctime that lags by one nanosecond more, an entry made before it can
   match the changed file and have the wrong hash.
   */
  lemma SlowerClockBreaks(hash: nat -> nat, walkStart: int)
    requires hash(1) != hash(2)
    ensures var newest := walkStart - TRUST_MARGIN - 1;
            var st, changed := File(newest, newest, 1, 1), File(newest, newest, 1, 2);
            var after := [Change(newest, Some(st)), Change(walkStart, Some(changed))];
            && OldEnoughToCache(st, walkStart) && changed.ctime == walkStart - (TRUST_MARGIN + 1)
            && !Sound(hash, Hashed(newest, newest, 1, hash(1)), after, walkStart)
  {}

  class FileStore {
    const hash: nat -> nat
    var hashes: map<Path, Hashed>
    var disk: map<Path, seq<Change>>
    var now: int

    function History(path: Path): seq<Change>
      reads this`disk
    {
      HistoryOn(disk, path)
    }

    predicate Sane(entries: map<Path, Hashed>)
      reads this`disk, this`now
    {
      forall path | path in entries :: Sound(hash, entries[path], History(path), now)
    }

    predicate Valid()
      reads this
    {
      Sane(hashes) && forall path | path in disk :: Stamped(disk[path], now)
    }

    constructor (hash: nat -> nat, now: int)
      ensures Valid() && this.hash == hash && hashes == map[]
    {
      this.hash := hash;
      hashes, disk, this.now := map[], map[], now;
    }

    // Someone writes, replaces or removes the file at the path.
    method Touch(path: Path, file: Option<File>)
      requires Valid() && (file.Some? ==> file.value.ctime >= now - CLOCK_LAG)
      modifies this`disk
      ensures Valid() && Passed(old(disk), old(now), disk, now)
      ensures History(path) == old(History(path)) + [Change(now, file)]
    {
      ghost var before := disk;
      var changes := (if path in disk then disk[path] else []) + [Change(now, file)];
      assert Stamped(changes, now);
      forall p | p in hashes && p == path ensures Sound(hash, hashes[p], changes, now) {
        ChangeKeepsSound(hash, hashes[p], History(p), now, Change(now, file));
      }
      disk := disk[path := changes];
    }

    method Sleep(later: nat)
      requires Valid()
      modifies this`now
      ensures Valid() && now == old(now) + later
    {
      hide Sound;
      forall path | path in hashes ensures Sound(hash, hashes[path], History(path), now + later) {
        LaterKeepsSound(hash, hashes[path], History(path), now, now + later);
      }
      now := now + later;
    }

    // Time passes, someone changes a file, or other calls of this store record hashes.
    method Stir()
      requires Valid()
      modifies this`hashes, this`disk, this`now
      ensures Valid() && Passed(old(disk), old(now), disk, now)
    {
      hide Sound, Stamped;
      var later: int := *;
      if later > 0 { Sleep(later); }
      Stayed(disk, old(now), now);
      ghost var onDisk, at := disk, now;
      Stayed(disk, now, now);
      var path: Path, file: Option<File> := *, *;
      if file.None? || file.value.ctime >= now - CLOCK_LAG { Touch(path, file); }
      var others: map<Path, Hashed> := *;
      if Sane(others) { hashes := others; }
      PassedOn(old(disk), old(now), onDisk, at, disk, now);
    }

    method Await()
      requires Valid()
      modifies this`hashes, this`disk, this`now
      ensures Valid() && Passed(old(disk), old(now), disk, now)
    {
      hide Sound, Stamped, Grew;
      var steps: nat := *;
      Stayed(disk, now, now);
      while steps > 0
        invariant Valid() && Passed(old(disk), old(now), disk, now)
      {
        steps := steps - 1;
        ghost var onDisk, at := disk, now;
        Stir();
        PassedOn(old(disk), old(now), onDisk, at, disk, now);
      }
    }

    /**
     The file's hash, from the cache when it matches the stamps: when the path does not change meanwhile, it is the
     hash of its content, and None when there is no file. Whatever happens meanwhile, the cache stays sound.
     */
    method HashViaCache(rel: Path, walkStart: int) returns (sha: Option<nat>)
      requires Valid() && walkStart <= now
      modifies this`hashes, this`disk, this`now
      ensures Valid() && Passed(old(disk), old(now), disk, now)
      ensures History(rel) == old(History(rel)) ==>
                sha == Rehash(hash, History(rel))
    {
      Await();
      ghost var onDisk, at := disk, now;
      Stayed(disk, now, now);
      var before := History(rel);
      var stat := Latest(before);
      if stat.None? { return None; }
      var st := stat.value;
      if rel in hashes && UnchangedSinceHashed(hashes[rel], st) {
        sha := Some(hashes[rel].sha);
      } else {
        Await();
        PassedOn(old(disk), old(now), onDisk, at, disk, now);
        sha := Read(rel, before);
        if sha.None? { return; }
      }
      if OldEnoughToCache(st, walkStart) {
        EntryIsSound(hash, st, walkStart, before, at, History(rel), now, sha.value);
        hashes := hashes[rel := Hashed(st.mtime, st.ctime, st.size, sha.value)];
      }
    }

    // Reads a file that was seen after `before`: its content's hash when nothing has changed, or else anything, since
    // the read may fall between changes, or nothing, when the file is gone.
    method Read(rel: Path, before: seq<Change>) returns (sha: Option<nat>)
      requires before <= History(rel) && Latest(before).Some?
      ensures History(rel) == before ==> sha == Some(hash(Latest(before).value.content))
    {
      if History(rel) == before { return Some(hash(Latest(before).value.content)); }
      sha := *;
    }

    /**
     A walk's result, for every path that does not change during it, is what hashing the file again would give. The
     walk's clock may lag real time, as one that counts whole milliseconds does.
     */
    method HashTree(rels: seq<Path>) returns (out: map<Path, nat>)
      requires Valid()
      modifies this`hashes, this`disk, this`now
      ensures Valid() && Passed(old(disk), old(now), disk, now)
      ensures forall rel | rel in rels && History(rel) == old(History(rel)) ::
                Lookup(out, rel) == Rehash(hash, History(rel))
    {
      hide Sound, Stamped, Rehash, Grew;
      var walkStart: int := *;
      if walkStart > now { walkStart := now; }
      Stayed(disk, now, now);
      out := map[];
      for i := 0 to |rels|
        invariant Valid() && Passed(old(disk), old(now), disk, now) && walkStart <= now
        invariant out.Keys <= set rel | rel in rels[..i]
        invariant forall rel | rel in rels[..i] && History(rel) == old(History(rel)) ::
                    Lookup(out, rel) == Rehash(hash, History(rel))
      {
        ghost var onDisk, at := disk, now;
        var sha := HashViaCache(rels[i], walkStart);
        PassedOn(old(disk), old(now), onDisk, at, disk, now);
        if sha.Some? { out := out[rels[i] := sha.value]; }
      }
    }
  }
}
