/** The package storage in a directory (apk_storage_fs.py): an index kept in memory beside the
    files, rebuilt from their names when it is lost. Over any run the two together are a map from
    places to what was saved last, as long as the names that are saved can be read back; which
    names those are is a matter of ApkFilename. */
module ApkStorage {
  import opened ApkFilename
  import opened Wrappers
  import Chunks

  type Key = (APKType, APKArch)

  datatype Package = Package(version: string, filename: string, mimetype: string, size: nat)

  /** The directory and the index. The index of the source is a dictionary by type of
      dictionaries by architecture; no operation here tells a missing from an empty inner one. */
  datatype Store = Store(files: map<string, seq<bv8>>, apks: map<Key, Package>)

  /** An order in which the directory lists the files in it. */
  ghost predicate Lists(listing: seq<string>, names: set<string>) {
    && (forall name :: name in names <==> name in listing)
    && forall i, j :: 0 <= i < j < |listing| ==> listing[i] != listing[j]
  }

  ghost predicate Lister(lister: set<string> -> seq<string>) {
    forall names :: Lists(lister(names), names)
  }

  // ---------------------------------------------------------------- the rebuild loop

  /** The place in the index that a file name names. */
  function KeyOf(filename: string): Option<Key> {
    match ReadBack(filename)
    case Some(l) => Some((l.package, l.arch))
    case None => None
  }

  /** The entry made from a file name and the size of the file. */
  function EntryOf(filename: string, size: nat): Package
    requires KeyOf(filename).Some?
  {
    var l := ReadBack(filename).value;
    Package(l.version, filename, l.mimetype, size)
  }

  function Indexed(filename: string, files: map<string, seq<bv8>>, apks: map<Key, Package>): map<Key, Package>
    requires filename in files
  {
    match KeyOf(filename)
    case None => apks
    case Some(k) => apks[k := EntryOf(filename, |files[filename]|)]
  }

  /** The index after the files of a listing were added to it, in that order. */
  function Scan(listing: seq<string>, files: map<string, seq<bv8>>, apks: map<Key, Package>): map<Key, Package>
    requires forall name <- listing :: name in files
  {
    if listing == [] then apks
    else
      var init := listing[..|listing| - 1];
      Indexed(listing[|listing| - 1], files, Scan(init, files, apks))
  }

  /** `reload`: what is in the index stays, and the files of the directory are added. */
  function Reload(s: Store, lister: set<string> -> seq<string>): Store
    requires Lists(lister(s.files.Keys), s.files.Keys)
  {
    s.(apks := Scan(lister(s.files.Keys), s.files, s.apks))
  }

  // ---------------------------------------------------------------- operations

  /** `validate_file`; false where it raises FileNotFoundError. */
  function Validate(s: Store, k: Key): (Store, bool) {
    if k !in s.apks then (s, false)
    else if s.apks[k].filename in s.files then (s, true)
    else (s.(apks := s.apks - {k}), false)
  }

  /** `delete_file` inside its decorators. */
  function DeleteIndexed(s: Store, k: Key): (Store, bool) {
    var (s1, ok) := Validate(s, k);
    if ok then (Store(s1.files - {s1.apks[k].filename}, s1.apks - {k}), true) else (s1, false)
  }

  /** `delete_file`: a missing file has the index rebuilt and the deletion tried once more. */
  function DeleteFile(s: Store, k: Key, lister: set<string> -> seq<string>): (Store, bool)
    requires Lister(lister)
  {
    var (s1, ok) := DeleteIndexed(s, k);
    if ok then (s1, true) else DeleteIndexed(Reload(s1, lister), k)
  }

  /** Whether a file of this name can be opened for writing: a slash would need a directory of its
      own, which is never made, and a null character is refused by Python. */
  predicate Writable(filename: string) { '/' !in filename && '\0' !in filename }

  /** `save_file`. Without a file to write to, the older version is gone all the same. */
  function SaveFile(s: Store, k: Key, version: string, mimetype: string, data: seq<bv8>, retry: bool,
                    lister: set<string> -> seq<string>): (Store, bool)
    requires Lister(lister)
    decreases retry
  {
    var filename := GenerateFilename(k.0, k.1, version, mimetype);
    var s1 := DeleteFile(s, k, lister).0;
    var s2 := DeleteFile(s1, k, lister).0;
    if Writable(filename) then
      (Store(s2.files[filename := data], s2.apks[k := Package(version, filename, mimetype, |data|)]), true)
    else if retry && '\0' !in filename then SaveFile(s2, k, version, mimetype, data, false, lister)
    else (s2, false)
  }

  // ---------------------------------------------------------------- rebuilding from nothing

  /** Index and directory agree: every entry is what its file's name says and has the file's size,
      and every file with a readable name is the one its place in the index holds. */
  ghost predicate Consistent(s: Store) {
    && (forall k :: k in s.apks ==>
          var filename := s.apks[k].filename;
          filename in s.files && KeyOf(filename) == Some(k) && s.apks[k] == EntryOf(filename, |s.files[filename]|))
    && (forall f :: f in s.files && KeyOf(f).Some? ==>
          KeyOf(f).value in s.apks && s.apks[KeyOf(f).value].filename == f)
  }

  /** No two files claim one place. */
  ghost predicate OneFilePerKey(files: map<string, seq<bv8>>) {
    forall f, g :: f in files && g in files && KeyOf(f).Some? && KeyOf(f) == KeyOf(g) ==> f == g
  }

  /** Scanning any files of a consistent store into any part of its index stays within that index
      and fills in the scanned files. */
  lemma {:induction false} ScanWithin(listing: seq<string>, s: Store, part: map<Key, Package>)
    requires Consistent(s) && (forall name <- listing :: name in s.files)
    requires forall k :: k in part ==> k in s.apks && part[k] == s.apks[k]
    ensures var r := Scan(listing, s.files, part);
            && (forall k :: k in r ==> k in s.apks && r[k] == s.apks[k])
            && (forall k :: k in part ==> k in r)
            && (forall f <- listing :: KeyOf(f).Some? ==> KeyOf(f).value in r)
  {
    hide ReadBack;
    if listing != [] {
      var init := listing[..|listing| - 1];
      ScanWithin(init, s, part);
      assert listing == init + [listing[|listing| - 1]];
    }
  }

  /** Rebuilding from any part of a consistent index recovers the index, in whatever order the
      directory lists its files. */
  lemma ScanRecovers(listing: seq<string>, s: Store, part: map<Key, Package>)
    requires Consistent(s) && Lists(listing, s.files.Keys)
    requires forall k :: k in part ==> k in s.apks && part[k] == s.apks[k]
    ensures Scan(listing, s.files, part) == s.apks
  {
    hide ReadBack;
    ScanWithin(listing, s, part);
    forall k | k in s.apks ensures k in Scan(listing, s.files, part) {
      assert s.apks[k].filename in listing;
    }
  }

  /** Scanned from nothing, an index holds what the scanned names say. */
  lemma {:induction false} ScanFromNothing(listing: seq<string>, files: map<string, seq<bv8>>)
    requires forall name <- listing :: name in files
    ensures var r := Scan(listing, files, map[]);
            && (forall k :: k in r ==>
                  var f := r[k].filename;
                  f in listing && KeyOf(f) == Some(k) && r[k] == EntryOf(f, |files[f]|))
            && (forall f <- listing :: KeyOf(f).Some? ==> KeyOf(f).value in r)
  {
    hide ReadBack;
    if listing != [] {
      var init := listing[..|listing| - 1];
      ScanFromNothing(init, files);
      assert listing == init + [listing[|listing| - 1]];
    }
  }

  /** An index rebuilt from nothing agrees with the directory exactly when no two files claim one
      place. */
  lemma RebuiltConsistentIff(listing: seq<string>, files: map<string, seq<bv8>>)
    requires Lists(listing, files.Keys)
    ensures Consistent(Store(files, Scan(listing, files, map[]))) <==> OneFilePerKey(files)
  {
    ScanFromNothing(listing, files);
  }

  /** Some listing of a directory. */
  lemma {:induction false} SomeListing(names: set<string>) returns (listing: seq<string>)
    ensures Lists(listing, names)
    decreases |names|
  {
    if names == {} {
      listing := [];
    } else {
      var name :| name in names;
      var rest := SomeListing(names - {name});
      listing := rest + [name];
    }
  }

  /** The last file listed for a place has it. */
  lemma LastListedWins(init: seq<string>, f: string, files: map<string, seq<bv8>>)
    requires f in files && KeyOf(f).Some? && forall name <- init :: name in files
    ensures KeyOf(f).value in Scan(init + [f], files, map[])
         && Scan(init + [f], files, map[])[KeyOf(f).value].filename == f
  {
    assert (init + [f])[..|init|] == init;
  }

  ghost predicate OrderFree(files: map<string, seq<bv8>>) {
    forall l, m :: Lists(l, files.Keys) && Lists(m, files.Keys) ==> Scan(l, files, map[]) == Scan(m, files, map[])
  }

  lemma ListsWithTwo(rest: seq<string>, names: set<string>, f: string, g: string)
    requires f in names && g in names && f != g && Lists(rest, names - {f, g})
    ensures Lists((rest + [f]) + [g], names)
  {
    var l := (rest + [f]) + [g];
    forall name ensures name in names <==> name in l {
      if name in names && name != f && name != g {
        assert name in rest;
      }
      assert l[|rest|] == f && l[|rest| + 1] == g;
    }
  }

  /** Two files for one place, listed last in either order. */
  lemma TwoOrders(files: map<string, seq<bv8>>, f: string, g: string)
    requires f in files && g in files && KeyOf(f).Some? && KeyOf(f) == KeyOf(g) && f != g
    ensures !OrderFree(files)
  {
    hide Scan;
    hide KeyOf;
    hide Lists;
    hide ReadBack;
    hide GenerateFilename;
    var rest := SomeListing(files.Keys - {f, g});
    var l, m := (rest + [f]) + [g], (rest + [g]) + [f];
    LastListedWins(rest + [f], g, files);
    LastListedWins(rest + [g], f, files);
    ListsWithTwo(rest, files.Keys, f, g);
    assert files.Keys - {f, g} == files.Keys - {g, f};
    ListsWithTwo(rest, files.Keys, g, f);
  }

  /** The order of the directory does not matter exactly when no two files claim one place. */
  lemma RebuildOrderFreeIff(files: map<string, seq<bv8>>)
    ensures OrderFree(files) <==> OneFilePerKey(files)
  {
    if OneFilePerKey(files) {
      forall l, m | Lists(l, files.Keys) && Lists(m, files.Keys)
        ensures Scan(l, files, map[]) == Scan(m, files, map[])
      {
        RebuiltConsistentIff(l, files);
        ScanRecovers(m, Store(files, Scan(l, files, map[])), map[]);
      }
    } else {
      var f, g :| f in files && g in files && KeyOf(f).Some? && KeyOf(f) == KeyOf(g) && f != g;
      TwoOrders(files, f, g);
    }
  }

  // ---------------------------------------------------------------- what a store holds

  /** What was put into a place: the caller's version and mimetype, and the bytes. */
  datatype Stored = Stored(version: string, mimetype: string, data: seq<bv8>)

  function Held(s: Store): map<Key, Stored>
    requires Consistent(s)
  {
    map k | k in s.apks :: Stored(s.apks[k].version, s.apks[k].mimetype, s.files[s.apks[k].filename])
  }

  /** Rebuilding a consistent index changes nothing. */
  lemma ReloadNeutral(s: Store, lister: set<string> -> seq<string>)
    requires Consistent(s) && Lister(lister)
    ensures Reload(s, lister) == s
  {
    ScanRecovers(lister(s.files.Keys), s, s.apks);
  }

  /** Deleting from a consistent store removes the package and its file, and fails exactly when
      there is none. */
  lemma DeleteMeaning(s: Store, k: Key, lister: set<string> -> seq<string>)
    requires Consistent(s) && Lister(lister)
    ensures var (r, ok) := DeleteFile(s, k, lister);
            && Consistent(r) && Held(r) == Held(s) - {k} && ok == (k in s.apks) && k !in r.apks
            && (ok ==> r.files == s.files - {s.apks[k].filename}) && (!ok ==> r == s)
  {
    hide Reload;
    hide ReadBack;
    hide GenerateFilename;
    if k !in s.apks {
      ReloadNeutral(s, lister);
    }
  }

  /** Deleting works as well when any part of the index is lost, which the failed attempt rebuilds: the same file
      goes, and the deletion fails exactly when there is none in the directory. */
  lemma DeleteSurvivesLoss(s: Store, part: map<Key, Package>, k: Key, lister: set<string> -> seq<string>)
    requires Consistent(s) && Lister(lister)
    requires forall j :: j in part ==> j in s.apks && part[j] == s.apks[j]
    ensures var (r, ok) := DeleteFile(Store(s.files, part), k, lister);
            && ok == (k in s.apks)
            && r.files == (if k in s.apks then s.files - {s.apks[k].filename} else s.files)
            && r.apks == (if k in part then part else s.apks) - {k}
  {
    hide KeyOf;
    hide EntryOf;
    ScanRecovers(lister(s.files.Keys), s, part);
    var lost := Store(s.files, part);
    assert Reload(lost, lister) == s;
    IndexedFile(s, k);
    hide Consistent;
    hide Reload;
    if k !in part {
      assert DeleteIndexed(lost, k) == (lost, false);
    }
  }

  lemma IndexedFile(s: Store, k: Key)
    requires Consistent(s)
    ensures k in s.apks ==> s.apks[k].filename in s.files
  {}

  /** The names under which a package put into a place can be found again. */
  predicate Storable(version: string, mimetype: string) {
    Readable(version) && KnownMimetype(mimetype)
  }

  lemma StorableIff(k: Key, version: string, mimetype: string, size: nat)
    ensures var filename := GenerateFilename(k.0, k.1, version, mimetype);
            (Storable(version, mimetype)
             <==> KeyOf(filename) == Some(k) && EntryOf(filename, size) == Package(version, filename, mimetype, size))
  {
    FilenameRoundTripIff(k.0, k.1, version, mimetype);
    var filename := GenerateFilename(k.0, k.1, version, mimetype);
    if KeyOf(filename) == Some(k) {
      var l := ReadBack(filename).value;
      assert l == Label(k.0, k.1, l.version, l.mimetype);
    }
  }

  /** Putting a package into an empty place of a consistent store. */
  function Put(s: Store, k: Key, version: string, mimetype: string, data: seq<bv8>): Store {
    var filename := GenerateFilename(k.0, k.1, version, mimetype);
    Store(s.files[filename := data], s.apks[k := Package(version, filename, mimetype, |data|)])
  }

  lemma PutConsistentIff(s: Store, k: Key, version: string, mimetype: string, data: seq<bv8>)
    requires Consistent(s) && k !in s.apks
    ensures Consistent(Put(s, k, version, mimetype, data)) <==> Storable(version, mimetype)
    ensures Storable(version, mimetype) ==>
              Held(Put(s, k, version, mimetype, data)) == Held(s)[k := Stored(version, mimetype, data)]
  {
    hide ReadBack;
    hide GenerateFilename;
    var filename := GenerateFilename(k.0, k.1, version, mimetype);
    var r := Put(s, k, version, mimetype, data);
    StorableIff(k, version, mimetype, |data|);
    if Storable(version, mimetype) {
      assert filename !in s.files;
      assert forall j :: j in s.apks ==> s.apks[j].filename != filename;
    }
  }

  lemma Overwrite(m: map<Key, Stored>, k: Key, v: Stored)
    ensures (m - {k})[k := v] == m[k := v]
  {}

  /** Saving into a consistent store: the old package goes, and the new one is found again from its
      name exactly when the version is readable and the mimetype known. A name that cannot be
      written leaves the place empty. */
  lemma SaveMeaning(s: Store, k: Key, version: string, mimetype: string, data: seq<bv8>, retry: bool,
                    lister: set<string> -> seq<string>)
    requires Consistent(s) && Lister(lister)
    ensures var (r, ok) := SaveFile(s, k, version, mimetype, data, retry, lister);
            && ok == Writable(GenerateFilename(k.0, k.1, version, mimetype))
            && (Consistent(r) <==> !ok || Storable(version, mimetype))
            && (!ok ==> Held(r) == Held(s) - {k})
            && (ok && Storable(version, mimetype) ==> Held(r) == Held(s)[k := Stored(version, mimetype, data)])
    decreases retry
  {
    hide DeleteFile;
    hide Consistent;
    hide Held;
    hide Storable;
    hide ReadBack;
    hide GenerateFilename;
    var filename := GenerateFilename(k.0, k.1, version, mimetype);
    var s1 := DeleteFile(s, k, lister).0;
    DeleteMeaning(s, k, lister);
    DeleteMeaning(s1, k, lister);
    assert Held(s1) - {k} == Held(s1);
    if Writable(filename) {
      PutConsistentIff(s1, k, version, mimetype, data);
      Overwrite(Held(s), k, Stored(version, mimetype, data));
    } else if retry && '\0' !in filename {
      SaveMeaning(s1, k, version, mimetype, data, false, lister);
    }
  }

  // ---------------------------------------------------------------- runs

  datatype Op =
    | Save(key: Key, version: string, mimetype: string, data: seq<bv8>, retry: bool)
    | Delete(key: Key)
    | Refresh
    | Restart

  /** An operation, and the order in which the directory is listed while it goes on. */
  datatype Event = Event(op: Op, lister: set<string> -> seq<string>)

  function Step(s: Store, e: Event): Store
    requires Lister(e.lister)
  {
    match e.op
    case Save(k, version, mimetype, data, retry) => SaveFile(s, k, version, mimetype, data, retry, e.lister).0
    case Delete(k) => DeleteFile(s, k, e.lister).0
    case Refresh => Reload(s, e.lister)
    case Restart => Reload(Store(s.files, map[]), e.lister)
  }

  function Run(s: Store, events: seq<Event>): Store
    requires forall e <- events :: Lister(e.lister)
    decreases |events|
  {
    if events == [] then s else Run(Step(s, events[0]), events[1..])
  }

  /** The same operation on a plain map; a restart forgets nothing. */
  function MapStep(m: map<Key, Stored>, op: Op): map<Key, Stored> {
    match op
    case Save(k, version, mimetype, data, _) =>
      if Writable(GenerateFilename(k.0, k.1, version, mimetype)) then m[k := Stored(version, mimetype, data)]
      else m - {k}
    case Delete(k) => m - {k}
    case Refresh => m
    case Restart => m
  }

  function MapRun(m: map<Key, Stored>, events: seq<Event>): map<Key, Stored>
    decreases |events|
  {
    if events == [] then m else MapRun(MapStep(m, events[0].op), events[1..])
  }

  predicate StorableOp(op: Op) { op.Save? ==> Storable(op.version, op.mimetype) }

  lemma StepRefines(s: Store, e: Event)
    requires Consistent(s) && Lister(e.lister) && StorableOp(e.op)
    ensures Consistent(Step(s, e)) && Held(Step(s, e)) == MapStep(Held(s), e.op)
  {
    match e.op
    case Save(k, version, mimetype, data, retry) =>
      SaveMeaning(s, k, version, mimetype, data, retry, e.lister);
    case Delete(k) => DeleteMeaning(s, k, e.lister);
    case Refresh => ReloadNeutral(s, e.lister);
    case Restart => ScanRecovers(e.lister(s.files.Keys), s, map[]);
  }

  /** Over every run of saves, deletions, reloads and restarts, directory and index together are a
      map from places to what was last put there. */
  lemma {:induction false} RunRefines(s: Store, events: seq<Event>)
    requires Consistent(s)
    requires forall e <- events :: Lister(e.lister) && StorableOp(e.op)
    ensures Consistent(Run(s, events)) && Held(Run(s, events)) == MapRun(Held(s), events)
    decreases |events|
  {
    hide ReadBack;
    hide GenerateFilename;
    if events != [] {
      StepRefines(s, events[0]);
      RunRefines(Step(s, events[0]), events[1..]);
    }
  }

  /** A package whose name cannot be read back does not survive a restart as it was saved. */
  lemma UnstorableLost(s: Store, k: Key, version: string, mimetype: string, data: seq<bv8>,
                       lister: set<string> -> seq<string>)
    requires Consistent(s) && Lister(lister) && k !in s.apks
    requires !Storable(version, mimetype)
    ensures var filename := GenerateFilename(k.0, k.1, version, mimetype);
            var r := Reload(Store(Put(s, k, version, mimetype, data).files, map[]), lister);
            k !in r.apks || r.apks[k] != Package(version, filename, mimetype, |data|)
  {
    var files := Put(s, k, version, mimetype, data).files;
    StorableIff(k, version, mimetype, |data|);
    ScanFromNothing(lister(files.Keys), files);
  }
}
