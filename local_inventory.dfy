/** The local inventory (`getLocalFiles`): the file-selection groups are
    flattened into (key, path) entries, entries whose path is not a regular
    file are dropped with a warning, and each survivor gets its digest. */
module LocalInventory {
  import opened Wrappers
  import opened Files
  import opened Sequences

  /** A flattened selection entry before its digest is attached. */
  datatype Candidate = Candidate(key: string, path: string)

  /** `f.cwd ? path.join(f.cwd, key) : key`; an empty `cwd` is falsy. */
  function ResolvePath(join: (string, string) -> string, cwd: Option<string>, key: string): string {
    if Truthy(cwd) then join(cwd.value, key) else key
  }

  /** `f.src.map(key => ({ key: key, path: filePath }))` for one group. */
  function KeysToCandidates(join: (string, string) -> string, cwd: Option<string>, keys: seq<string>): (cs: seq<Candidate>)
    ensures |cs| == |keys|
    ensures forall i :: 0 <= i < |keys| ==> cs[i] == Candidate(keys[i], ResolvePath(join, cwd, keys[i]))
  {
    if keys == [] then []
    else [Candidate(keys[0], ResolvePath(join, cwd, keys[0]))] + KeysToCandidates(join, cwd, keys[1..])
  }

  function GroupCandidates(join: (string, string) -> string, g: FileGroup): seq<Candidate> {
    KeysToCandidates(join, g.cwd, g.src)
  }

  /** `gruntFiles.reduce((files, f) => files.concat(...), [])`: a left fold
      that appends each group's entries to those of the groups before it. */
  function Flatten(join: (string, string) -> string, groups: seq<FileGroup>): seq<Candidate> {
    if groups == [] then []
    else Flatten(join, groups[..|groups| - 1]) + GroupCandidates(join, groups[|groups| - 1])
  }

  /** The keys of all groups, group after group: the reference order. */
  function AllKeys(groups: seq<FileGroup>): seq<string> {
    if groups == [] then [] else groups[0].src + AllKeys(groups[1..])
  }

  function KeyOf(c: Candidate): string { c.key }

  /** The flattened list is the first group's entries followed by the rest. */
  lemma {:induction false} FlattenCons(join: (string, string) -> string, g: FileGroup, groups: seq<FileGroup>)
    ensures Flatten(join, [g] + groups) == GroupCandidates(join, g) + Flatten(join, groups)
    decreases |groups|
  {
    var all := [g] + groups;
    if groups == [] {
      assert all[..|all| - 1] == [];
    } else {
      var init, last := groups[..|groups| - 1], groups[|groups| - 1];
      assert all[..|all| - 1] == [g] + init;
      assert all[|all| - 1] == last;
      FlattenCons(join, g, init);
      calc {
        Flatten(join, all);
        Flatten(join, [g] + init) + GroupCandidates(join, last);
        (GroupCandidates(join, g) + Flatten(join, init)) + GroupCandidates(join, last);
        GroupCandidates(join, g) + (Flatten(join, init) + GroupCandidates(join, last));
        GroupCandidates(join, g) + Flatten(join, groups);
      }
    }
  }

  /** Flattening keeps every key unchanged and in group-then-`src` order. */
  lemma {:induction false} FlattenKeys(join: (string, string) -> string, groups: seq<FileGroup>)
    ensures Map(KeyOf, Flatten(join, groups)) == AllKeys(groups)
  {
    if groups != [] {
      assert groups == [groups[0]] + groups[1..];
      FlattenCons(join, groups[0], groups[1..]);
      FlattenKeys(join, groups[1..]);
      MapAppend(KeyOf, GroupCandidates(join, groups[0]), Flatten(join, groups[1..]));
      var gc := GroupCandidates(join, groups[0]);
      assert Map(KeyOf, gc) == groups[0].src;
    }
  }

  /** Every flattened entry comes from a key of some group, with that group's
      resolved path, and every key of every group yields an entry. */
  lemma {:induction false} FlattenEntries(join: (string, string) -> string, groups: seq<FileGroup>, c: Candidate)
    ensures c in Flatten(join, groups) <==>
      exists g :: g in groups && c.key in g.src && c.path == ResolvePath(join, g.cwd, c.key)
  {
    if groups != [] {
      var init, last := groups[..|groups| - 1], groups[|groups| - 1];
      assert groups == init + [last];
      FlattenEntries(join, init, c);
      var gc := GroupCandidates(join, last);
      if c in gc {
        var i :| 0 <= i < |gc| && gc[i] == c;
        assert last.src[i] == c.key;
      }
      if c.key in last.src && c.path == ResolvePath(join, last.cwd, c.key) {
        var i :| 0 <= i < |last.src| && last.src[i] == c.key;
        assert gc[i] == c;
      }
    }
  }

  /** The callback given to `filter`: the entry's path is a regular file. */
  function IsFileEntry(host: Host): Candidate -> bool {
    (c: Candidate) => host.isFile(c.path)
  }

  /** The callback given to the warning branch: the entry is dropped. */
  function NotFileEntry(host: Host): Candidate -> bool {
    (c: Candidate) => !host.isFile(c.path)
  }

  /** The callback given to `map`: attach the digest of the file's contents. */
  function WithDigest(host: Host): Candidate -> LocalFile {
    (c: Candidate) => LocalFile(c.key, c.path, ContentDigest(host, c.path))
  }

  function PathOf(c: Candidate): string { c.path }

  function CandidateOf(f: LocalFile): Candidate { Candidate(f.key, f.path) }

  /** The local inventory the task builds from `groups`. */
  function LocalFiles(host: Host, groups: seq<FileGroup>): seq<LocalFile> {
    Map(WithDigest(host), Filter(IsFileEntry(host), Flatten(host.join, groups)))
  }

  /** The paths warned about, in order: those of the dropped entries. */
  function Warnings(host: Host, groups: seq<FileGroup>): seq<string> {
    Map(PathOf, Filter(NotFileEntry(host), Flatten(host.join, groups)))
  }

  /** With the digests taken off, the inventory is exactly the flattened
      entries whose path is a regular file, in order, none added or repeated. */
  lemma LocalFilesAreFileEntries(host: Host, groups: seq<FileGroup>)
    ensures Map(CandidateOf, LocalFiles(host, groups)) == Filter(IsFileEntry(host), Flatten(host.join, groups))
  {
  }

  /** Every inventory entry is a regular file of the selection whose digest
      is the MD5 of its contents. */
  lemma LocalFileDigests(host: Host, groups: seq<FileGroup>, f: LocalFile)
    requires f in LocalFiles(host, groups)
    ensures host.isFile(f.path)
    ensures f.digest == ContentDigest(host, f.path)
    ensures Candidate(f.key, f.path) in Flatten(host.join, groups)
  {
    var cs := Flatten(host.join, groups);
    var kept := Filter(IsFileEntry(host), cs);
    var i :| 0 <= i < |kept| && LocalFiles(host, groups)[i] == f;
    FilterMembers(IsFileEntry(host), cs, kept[i]);
  }

  /** A selected entry whose path is missing is left out, and that does not
      stop the inventory: every other regular file is still in it. */
  lemma MissingFileIsSkipped(host: Host, groups: seq<FileGroup>, c: Candidate)
    requires c in Flatten(host.join, groups)
    ensures !host.isFile(c.path) ==>
      c.path in Warnings(host, groups) && forall f :: f in LocalFiles(host, groups) ==> f.path != c.path
    ensures host.isFile(c.path) ==> WithDigest(host)(c) in LocalFiles(host, groups)
  {
    var cs := Flatten(host.join, groups);
    var dropped := Filter(NotFileEntry(host), cs);
    var kept := Filter(IsFileEntry(host), cs);
    FilterMembers(NotFileEntry(host), cs, c);
    FilterMembers(IsFileEntry(host), cs, c);
    if !host.isFile(c.path) {
      var i :| 0 <= i < |dropped| && dropped[i] == c;
      assert Warnings(host, groups)[i] == c.path;
      forall f | f in LocalFiles(host, groups) ensures f.path != c.path {
        LocalFileDigests(host, groups, f);
      }
    } else {
      var i :| 0 <= i < |kept| && kept[i] == c;
      assert LocalFiles(host, groups)[i] == WithDigest(host)(c);
    }
  }

  /** The `filter` pass: keep the entries whose path is a regular file and
      warn about each other path, in order. */
  method KeepRegularFiles(host: Host, candidates: seq<Candidate>) returns (kept: seq<Candidate>, warnings: seq<string>)
    ensures kept == Filter(IsFileEntry(host), candidates)
    ensures warnings == Map(PathOf, Filter(NotFileEntry(host), candidates))
  {
    kept, warnings := [], [];
    var i := 0;
    while i < |candidates|
      invariant 0 <= i <= |candidates|
      invariant kept == Filter(IsFileEntry(host), candidates[..i])
      invariant warnings == Map(PathOf, Filter(NotFileEntry(host), candidates[..i]))
    {
      var c := candidates[i];
      assert candidates[..i + 1] == candidates[..i] + [c];
      FilterSnoc(IsFileEntry(host), candidates[..i], c);
      FilterSnoc(NotFileEntry(host), candidates[..i], c);
      if host.isFile(c.path) {
        kept := kept + [c];
      } else {
        MapAppend(PathOf, Filter(NotFileEntry(host), candidates[..i]), [c]);
        warnings := warnings + [c.path];
      }
      i := i + 1;
    }
    assert candidates[..i] == candidates;
  }

  /** The `map` pass: set each kept entry's digest to the MD5 of its contents. */
  method AttachDigests(host: Host, kept: seq<Candidate>) returns (files: seq<LocalFile>)
    ensures files == Map(WithDigest(host), kept)
  {
    files := [];
    var j := 0;
    while j < |kept|
      invariant 0 <= j <= |kept|
      invariant |files| == j
      invariant forall k :: 0 <= k < j ==> files[k] == WithDigest(host)(kept[k])
    {
      var c := kept[j];
      files := files + [LocalFile(c.key, c.path, ContentDigest(host, c.path))];
      j := j + 1;
    }
  }

  /** `getLocalFiles`: flatten the groups, then the filter pass, then the
      digest pass. */
  method GetLocalFiles(host: Host, groups: seq<FileGroup>) returns (files: seq<LocalFile>, warnings: seq<string>)
    ensures files == LocalFiles(host, groups)
    ensures warnings == Warnings(host, groups)
  {
    var candidates := Flatten(host.join, groups);
    var kept;
    kept, warnings := KeepRegularFiles(host, candidates);
    files := AttachDigests(host, kept);
  }
}
