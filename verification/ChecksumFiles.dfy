/** Checksums over readers and directories: `src/checksum.rs` reads each file in blocks,
    retries interrupted reads, and takes the files of a directory in sorted order. */
module ChecksumFiles {
  import opened Basics
  import opened Words
  import opened Checksum
  import Sorting

  // ---------------------------------------------------------------------------
  // Readers
  // ---------------------------------------------------------------------------

  /** One answer of `Read::read`. An empty block is end of file. */
  datatype ReadEvent = Block(bytes: seq<Byte>) | Interrupted | Failed

  datatype ReadOutcome = Done | InvalidInput(error: Error) | IoError

  /** Feeds the answers of a reader to a context; a reader that has run dry is at its end. */
  function ReadAll(c: Context, script: seq<ReadEvent>): (Context, ReadOutcome)
    decreases |script|
  {
    if script == [] then (c, Done)
    else match script[0]
      case Block(bytes) =>
        if bytes == [] then (c, Done)
        else if Admission(c).Refused? then (c, InvalidInput(Admission(c).error))
        else ReadAll(Extended(c, bytes), script[1..])
      case Interrupted => ReadAll(c, script[1..])
      case Failed => (c, IoError)
  }

  method ExtendFromReader(script: seq<ReadEvent>, context: ChecksumContext) returns (r: ReadOutcome)
    requires context.Valid()
    modifies context
    ensures context.Valid()
    ensures (context.View(), r) == ReadAll(old(context.View()), script)
  {
    var i := 0;
    while i < |script|
      invariant i <= |script| && context.Valid()
      invariant ReadAll(context.View(), script[i..]) == ReadAll(old(context.View()), script)
    {
      assert script[i..][0] == script[i] && script[i..][1..] == script[i + 1..];
      match script[i] {
        case Block(bytes) =>
          if bytes == [] {
            return Done;
          }
          var admitted := context.Extend(bytes);
          if admitted.Refused? {
            return InvalidInput(admitted.error);
          }
        case Interrupted =>
        case Failed =>
          return IoError;
      }
      i := i + 1;
    }
    return Done;
  }

  /** The blocks a reader hands over before its end. */
  function Pieces(script: seq<ReadEvent>): seq<seq<Byte>> {
    if script == [] || script[0] == Block([]) || script[0].Failed? then []
    else (if script[0].Block? then [script[0].bytes] else []) + Pieces(script[1..])
  }

  function Delivered(script: seq<ReadEvent>): seq<Byte> {
    Flatten(Pieces(script))
  }

  /** A reader that reaches its end without a real error. */
  predicate Clean(script: seq<ReadEvent>) {
    script == [] || script[0] == Block([]) || (!script[0].Failed? && Clean(script[1..]))
  }

  lemma {:induction false} AdmissionKept(c: Context, pieces: seq<seq<Byte>>)
    ensures Admission(ExtendedAll(c, pieces)) == Admission(c)
    decreases |pieces|
  {
    if pieces != [] {
      AdmissionKept(Extended(c, pieces[0]), pieces[1..]);
    }
  }

  /** Interruptions vanish: reading to the end is extending by the blocks. */
  lemma {:induction false} ReadIsExtend(c: Context, script: seq<ReadEvent>)
    requires Admission(c) == Accepted && Clean(script)
    ensures ReadAll(c, script) == (ExtendedAll(c, Pieces(script)), Done)
    decreases |script|
  {
    if script == [] || script[0] == Block([]) {
    } else if script[0].Interrupted? {
      assert Pieces(script) == Pieces(script[1..]);
      ReadIsExtend(c, script[1..]);
    } else {
      ReadIsExtend(Extended(c, script[0].bytes), script[1..]);
    }
  }

  /** A real error before the end is reported, with exactly the blocks before it taken in. */
  lemma {:induction false} FailureReported(c: Context, script: seq<ReadEvent>)
    requires Admission(c) == Accepted && !Clean(script)
    ensures ReadAll(c, script) == (ExtendedAll(c, Pieces(script)), IoError)
    decreases |script|
  {
    if script[0].Interrupted? {
      assert Pieces(script) == Pieces(script[1..]);
      FailureReported(c, script[1..]);
    } else if script[0].Block? {
      FailureReported(Extended(c, script[0].bytes), script[1..]);
    }
  }

  /** A reader ends uncleanly exactly when an error comes before every end of file. */
  lemma {:induction false} UncleanIff(script: seq<ReadEvent>)
    ensures !Clean(script) <==>
              exists i :: 0 <= i < |script| && script[i].Failed? && Block([]) !in script[..i]
  {
    if script != [] && script[0] != Block([]) && !script[0].Failed? {
      UncleanIff(script[1..]);
      if i :| 0 <= i < |script[1..]| && script[1..][i].Failed? && Block([]) !in script[1..][..i] {
        assert script[..i + 1] == [script[0]] + script[1..][..i];
        assert script[i + 1].Failed?;
      }
      if i :| 0 <= i < |script| && script[i].Failed? && Block([]) !in script[..i] {
        assert script[1..][..i - 1] == script[..i][1..];
        assert script[1..][i - 1].Failed?;
      }
    } else if script != [] && script[0].Failed? {
      assert script[..0] == [];
    } else if script != [] {
      assert forall i :: 0 < i < |script| ==> script[..i][0] == Block([]);
    }
  }

  /** A context that refuses takes nothing in, and says why at the first block. */
  lemma {:induction false} RefusalReported(c: Context, script: seq<ReadEvent>)
    requires Admission(c).Refused?
    ensures ReadAll(c, script).0 == c
    ensures Pieces(script) != [] ==> ReadAll(c, script).1 == InvalidInput(Admission(c).error)
    decreases |script|
  {
    if script != [] && script[0].Interrupted? {
      RefusalReported(c, script[1..]);
    }
  }

  // ---------------------------------------------------------------------------
  // Several files
  // ---------------------------------------------------------------------------

  function ReadFiles(c: Context, scripts: seq<seq<ReadEvent>>): (Context, ReadOutcome)
    decreases |scripts|
  {
    if scripts == [] then (c, Done)
    else
      var (c', r) := ReadAll(c, scripts[0]);
      if r != Done then (c', r) else ReadFiles(c', scripts[1..])
  }

  /** Each reader ends cleanly and delivers its file's content. */
  predicate Reads(scripts: seq<seq<ReadEvent>>, contents: seq<seq<Byte>>) {
    && |scripts| == |contents|
    && forall i :: 0 <= i < |scripts| ==> Clean(scripts[i]) && Delivered(scripts[i]) == contents[i]
  }

  function AllPieces(scripts: seq<seq<ReadEvent>>): seq<seq<Byte>> {
    if scripts == [] then [] else Pieces(scripts[0]) + AllPieces(scripts[1..])
  }

  lemma {:induction false} FlattenConcat(a: seq<seq<Byte>>, b: seq<seq<Byte>>)
    ensures Flatten(a + b) == Flatten(a) + Flatten(b)
  {
    if a == [] {
      assert a + b == b;
    } else {
      assert (a + b)[1..] == a[1..] + b;
      FlattenConcat(a[1..], b);
    }
  }

  lemma {:induction false} ExtendedAllConcat(c: Context, a: seq<seq<Byte>>, b: seq<seq<Byte>>)
    ensures ExtendedAll(c, a + b) == ExtendedAll(ExtendedAll(c, a), b)
    decreases |a|
  {
    if a == [] {
      assert a + b == b;
    } else {
      assert (a + b)[0] == a[0] && (a + b)[1..] == a[1..] + b;
      ExtendedAllConcat(Extended(c, a[0]), a[1..], b);
    }
  }

  lemma {:induction false} FilesAreExtends(c: Context, scripts: seq<seq<ReadEvent>>, contents: seq<seq<Byte>>)
    requires Admission(c) == Accepted && Reads(scripts, contents)
    ensures ReadFiles(c, scripts) == (ExtendedAll(c, AllPieces(scripts)), Done)
    ensures Flatten(AllPieces(scripts)) == Flatten(contents)
    decreases |scripts|
  {
    if scripts != [] {
      var pieces, rest := Pieces(scripts[0]), AllPieces(scripts[1..]);
      ReadIsExtend(c, scripts[0]);
      AdmissionKept(c, pieces);
      FilesAreExtends(ExtendedAll(c, pieces), scripts[1..], contents[1..]);
      ExtendedAllConcat(c, pieces, rest);
      FlattenConcat(pieces, rest);
    }
  }

  /** Block sizes and interruptions do not matter: the digest of files read in any way is
      the one-shot digest of their contents in order. */
  lemma ReadDigest(kind: ChecksumType, scripts: seq<seq<ReadEvent>>, contents: seq<seq<Byte>>)
    requires kind != Invalid
    requires Reads(scripts, contents) && |Flatten(contents)| <= U64_MAX
    ensures var (c, r) := ReadFiles(New(kind), scripts);
            && r == Done && Short(c)
            && ResultOf(Finalized(c)).value == Digest(kind, Flatten(contents))
            && ResultOf(Finalized(c)).bytes == |Flatten(contents)|
  {
    FilesAreExtends(New(kind), scripts, contents);
    CutsDoNotMatter(kind, AllPieces(scripts));
  }

  // ---------------------------------------------------------------------------
  // Directories
  // ---------------------------------------------------------------------------

  datatype File<P> = File(path: P, content: seq<Byte>)

  /** A directory as `read_dir` lists it, sub-directories included. */
  datatype Entry<P> = Plain(file: File<P>) | Dir(entries: seq<Entry<P>>)

  /** `collect_files`: depth first, in listing order. */
  function Collect<P>(entries: seq<Entry<P>>): seq<File<P>> {
    if entries == [] then []
    else (match entries[0]
          case Plain(f) => [f]
          case Dir(inner) => Collect(inner)) + Collect(entries[1..])
  }

  /** The file reached by taking entry `path[0]`, then inside it entry `path[1]`, and so on. */
  function FileAt<P>(entries: seq<Entry<P>>, path: seq<nat>): Option<File<P>>
    decreases |path|
  {
    if path == [] || path[0] >= |entries| then None
    else match entries[path[0]]
      case Plain(f) => if |path| == 1 then Some(f) else None
      case Dir(inner) => FileAt(inner, path[1..])
  }

  /** How often a file occurs in a tree. */
  function Occurrences<P(==)>(entries: seq<Entry<P>>, f: File<P>): nat {
    if entries == [] then 0
    else (match entries[0]
          case Plain(g) => if f == g then 1 else 0
          case Dir(inner) => Occurrences(inner, f)) + Occurrences(entries[1..], f)
  }

  lemma {:induction false} FoundLater<P>(entries: seq<Entry<P>>, path: seq<nat>)
    requires entries != [] && path != [] && path[0] > 0
    ensures FileAt(entries, path) == FileAt(entries[1..], [path[0] - 1] + path[1..])
  {
    assert ([path[0] - 1] + path[1..])[1..] == path[1..];
  }

  /** Every file collected is somewhere in the tree. */
  lemma {:induction false} CollectedIsThere<P>(entries: seq<Entry<P>>, f: File<P>) returns (path: seq<nat>)
    requires f in Collect(entries)
    ensures FileAt(entries, path) == Some(f)
    decreases entries
  {
    if f in Collect(entries[1..]) {
      var rest := CollectedIsThere(entries[1..], f);
      path := [rest[0] + 1] + rest[1..];
      assert [path[0] - 1] + path[1..] == rest;
      FoundLater(entries, path);
    } else if entries[0].Dir? {
      var rest := CollectedIsThere(entries[0].entries, f);
      path := [0] + rest;
      assert path[1..] == rest;
    } else {
      path := [0];
    }
  }

  /** Every file of the tree, at any depth, is collected. */
  lemma {:induction false} ThereIsCollected<P>(entries: seq<Entry<P>>, path: seq<nat>)
    requires FileAt(entries, path).Some?
    ensures FileAt(entries, path).value in Collect(entries)
    decreases entries, path
  {
    if path[0] > 0 {
      FoundLater(entries, path);
      ThereIsCollected(entries[1..], [path[0] - 1] + path[1..]);
    } else if entries[0].Dir? {
      ThereIsCollected(entries[0].entries, path[1..]);
    }
  }

  /** Each as often as it occurs. */
  lemma {:induction false} CollectedAsOften<P>(entries: seq<Entry<P>>, f: File<P>)
    ensures multiset(Collect(entries))[f] == Occurrences(entries, f)
    decreases entries
  {
    if entries != [] {
      CollectedAsOften(entries[1..], f);
      if entries[0].Dir? {
        CollectedAsOften(entries[0].entries, f);
      }
    }
  }

  function Without<T>(s: seq<T>, i: nat): seq<T>
    requires i < |s|
  {
    s[..i] + s[i + 1..]
  }

  /** The same directory listed in another order, at any depth. */
  ghost predicate Relisted<P(!new)>(a: seq<Entry<P>>, b: seq<Entry<P>>) {
    if a == [] then b == []
    else exists i :: 0 <= i < |b| && SameEntry(a[0], b[i]) && Relisted(a[1..], Without(b, i))
  }

  ghost predicate SameEntry<P(!new)>(x: Entry<P>, y: Entry<P>) {
    match x
    case Plain(f) => y == x
    case Dir(inner) => y.Dir? && Relisted(inner, y.entries)
  }

  lemma {:induction false} CollectSplit<P>(a: seq<Entry<P>>, b: seq<Entry<P>>)
    ensures Collect(a + b) == Collect(a) + Collect(b)
  {
    if a == [] {
      assert a + b == b;
    } else {
      assert (a + b)[1..] == a[1..] + b;
      CollectSplit(a[1..], b);
    }
  }

  lemma MiddleFirst<T>(x: seq<T>, y: seq<T>, z: seq<T>)
    ensures multiset(x + (y + z)) == multiset(y) + multiset(x + z)
  {
  }

  lemma CollectWithout<P>(b: seq<Entry<P>>, i: nat)
    requires i < |b|
    ensures multiset(Collect(b)) == multiset(Collect([b[i]])) + multiset(Collect(Without(b, i)))
  {
    var before, at, after := b[..i], [b[i]], b[i + 1..];
    assert b == before + (at + after);
    CollectSplit(before, at + after);
    CollectSplit(at, after);
    CollectSplit(before, after);
    MiddleFirst(Collect(before), Collect(at), Collect(after));
  }

  lemma {:induction false} RelistedFiles<P(!new)>(a: seq<Entry<P>>, b: seq<Entry<P>>)
    requires Relisted(a, b)
    ensures multiset(Collect(a)) == multiset(Collect(b))
    decreases a
  {
    if a != [] {
      var i :| 0 <= i < |b| && SameEntry(a[0], b[i]) && Relisted(a[1..], Without(b, i));
      SameEntryFiles(a, b[i]);
      RelistedFiles(a[1..], Without(b, i));
      CollectWithout(b, i);
      CollectSplit([a[0]], a[1..]);
      assert a == [a[0]] + a[1..];
    }
  }

  lemma {:induction false} SameEntryFiles<P(!new)>(a: seq<Entry<P>>, y: Entry<P>)
    requires a != [] && SameEntry(a[0], y)
    ensures multiset(Collect([a[0]])) == multiset(Collect([y]))
    decreases a, 0
  {
    match a[0]
    case Plain(_) =>
    case Dir(inner) =>
      RelistedFiles(inner, y.entries);
      assert Collect([a[0]]) == Collect(inner) + [];
      assert Collect([y]) == Collect(y.entries) + [];
  }

  // ---------------------------------------------------------------------------
  // Sorted, so that listing order does not matter
  // ---------------------------------------------------------------------------

  /** Paths of one file system name one file each, and are compared by a total order. */
  ghost predicate ProperPaths<P(!new)>(le: (P, P) -> bool, files: seq<File<P>>) {
    && Sorting.TotalPreorder(le)
    && (forall x, y :: le(x, y) && le(y, x) ==> x == y)
    && (forall f, g :: f in files && g in files && f.path == g.path ==> f == g)
  }

  function ByPath<P>(le: (P, P) -> bool): (File<P>, File<P>) -> bool {
    (f: File<P>, g: File<P>) => le(f.path, g.path)
  }

  /** `matrixraft_checksum_file_list` of a directory. */
  function FileList<P>(le: (P, P) -> bool, entries: seq<Entry<P>>): seq<File<P>> {
    Sorting.Sorted(ByPath(le), Collect(entries))
  }

  lemma ByPathIsOrder<P(!new)>(le: (P, P) -> bool, files: seq<File<P>>)
    requires ProperPaths(le, files)
    ensures Sorting.TotalPreorder(ByPath(le)) && Sorting.Strict(ByPath(le), files)
  {
    var order := ByPath(le);
    forall f, g ensures order(f, g) || order(g, f) {
      assert le(f.path, g.path) || le(g.path, f.path);
    }
    forall f, g, h | order(f, g) && order(g, h) ensures order(f, h) {
      assert le(f.path, g.path) && le(g.path, h.path);
    }
    forall f, g | f in files && g in files && order(f, g) && order(g, f) ensures f == g {
      assert le(f.path, g.path) && le(g.path, f.path);
    }
  }

  /** The file list is the files of the tree, in the order of their paths. */
  lemma FileListSorted<P(!new)>(le: (P, P) -> bool, entries: seq<Entry<P>>)
    requires ProperPaths(le, Collect(entries))
    ensures var files := FileList(le, entries);
            && multiset(files) == multiset(Collect(entries))
            && forall i, j :: 0 <= i < j < |files| ==> le(files[i].path, files[j].path)
  {
    ByPathIsOrder(le, Collect(entries));
    Sorting.SortedIsSort(ByPath(le), Collect(entries));
    var files := FileList(le, entries);
    forall i, j | 0 <= i < j < |files| ensures le(files[i].path, files[j].path) {
      assert ByPath(le)(files[i], files[j]);
    }
  }

  /** However a directory tree is enumerated, its file list is the same. */
  lemma ListingOrderForgotten<P(!new)>(le: (P, P) -> bool, a: seq<Entry<P>>, b: seq<Entry<P>>)
    requires Relisted(a, b) && ProperPaths(le, Collect(a))
    ensures FileList(le, a) == FileList(le, b)
  {
    RelistedFiles(a, b);
    ByPathIsOrder(le, Collect(a));
    Sorting.SortForgetsOrder(ByPath(le), Collect(a), Collect(b));
  }

  function Contents<P>(files: seq<File<P>>): (c: seq<seq<Byte>>)
    ensures |c| == |files| && forall i :: 0 <= i < |c| ==> c[i] == files[i].content
  {
    seq(|files|, i requires 0 <= i < |files| => files[i].content)
  }

  /** Two checksums of one directory agree in value and byte count, whatever order the
      directory was enumerated in and however each file's reads were cut or interrupted. */
  lemma DirectoryDigest<P(!new)>(kind: ChecksumType, le: (P, P) -> bool, a: seq<Entry<P>>, b: seq<Entry<P>>,
                                 readsA: seq<seq<ReadEvent>>, readsB: seq<seq<ReadEvent>>)
    requires kind != Invalid && Relisted(a, b) && ProperPaths(le, Collect(a))
    requires Reads(readsA, Contents(FileList(le, a))) && Reads(readsB, Contents(FileList(le, b)))
    requires |Flatten(Contents(FileList(le, a)))| <= U64_MAX
    ensures var (ca, ra) := ReadFiles(New(kind), readsA);
            var (cb, rb) := ReadFiles(New(kind), readsB);
            && ra == Done && rb == Done && Short(ca) && Short(cb)
            && ResultOf(Finalized(ca)).value == ResultOf(Finalized(cb)).value
            && ResultOf(Finalized(ca)).bytes == ResultOf(Finalized(cb)).bytes
  {
    ListingOrderForgotten(le, a, b);
    ReadDigest(kind, readsA, Contents(FileList(le, a)));
    ReadDigest(kind, readsB, Contents(FileList(le, b)));
  }
}
