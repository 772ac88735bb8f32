/** An abstract filesystem: a finite map from paths to directories and files,
    with the os, shutil and save operations the adapters call, each failing the
    way the Python call raises. A path is a sequence of components, so that
    os.path.join(a, b, c) is a + [b, c]; the empty path is the working
    directory, which always exists and is not an entry of the map. */
module FileSys {
  import opened Outcome

  type Path = seq<string>

  datatype Node<C> = Dir | File(content: C)

  type Fs<C> = map<Path, Node<C>>

  /** os.path.exists */
  predicate Exists<C>(fs: Fs<C>, p: Path)
  {
    p in fs
  }

  /** os.path.isdir */
  predicate IsDir<C>(fs: Fs<C>, p: Path)
  {
    p in fs && fs[p].Dir?
  }

  predicate IsFile<C>(fs: Fs<C>, p: Path)
  {
    p in fs && fs[p].File?
  }

  /** The parent of p is a directory the call can create p in. */
  predicate ParentIsDir<C>(fs: Fs<C>, p: Path)
  {
    |p| == 1 || (|p| > 1 && IsDir(fs, p[..|p| - 1]))
  }

  /** Some directory on the way to p, p itself excluded, is a file. */
  predicate FileOnTheWay<C>(fs: Fs<C>, p: Path, from: nat)
  {
    exists m :: from <= m < |p| && IsFile(fs, p[..m])
  }

  /** What every real filesystem satisfies: the parent of each entry is a directory. */
  ghost predicate WellFormed<C>(fs: Fs<C>)
  {
    forall q :: q in fs && |q| > 1 ==> IsDir(fs, q[..|q| - 1])
  }

  /** In a well-formed filesystem every directory on the way to an entry exists. */
  lemma {:induction false} AncestorPresent<C>(fs: Fs<C>, q: Path, m: nat)
    requires WellFormed(fs) && q in fs && 1 <= m <= |q|
    ensures q[..m] in fs
    decreases |q| - m
  {
    if m < |q| {
      AncestorPresent(fs, q, m + 1);
      assert q[..m + 1][..m] == q[..m];
    } else {
      assert q[..m] == q;
    }
  }

  /** Nothing lies strictly below directory p. */
  ghost predicate EmptyDir<C>(fs: Fs<C>, p: Path)
  {
    IsDir(fs, p) && forall q :: q in fs && p <= q ==> q == p
  }

  /** b holds every entry of a, unchanged. */
  ghost predicate Extends<C>(a: Fs<C>, b: Fs<C>)
  {
    forall q :: q in a ==> q in b && b[q] == a[q]
  }

  /** Every entry outside directory d is the same in a and b, except that b may
      hold directories on the way to d that a lacks. */
  ghost predicate SameOutside<C>(a: Fs<C>, b: Fs<C>, d: Path)
  {
    && (forall q :: q in a && !(d <= q) ==> q in b && b[q] == a[q])
    && (forall q :: q in b && !(d <= q) && q !in a ==> q < d && b[q].Dir?)
  }

  /** os.listdir(p). The names it returns, and their order, are an input:
      listing(p) is what the call returns when p is a directory. The model does not
      tie those names to the entries of fs inside p. */
  function Listdir<C>(fs: Fs<C>, p: Path, listing: Path -> seq<string>): (r: Result<seq<string>>)
    ensures r.Success? <==> IsDir(fs, p)
    ensures r.Success? ==> r.value == listing(p)
    ensures r.Failure? && !Exists(fs, p) ==> r.error == FileNotFound(p)
    ensures r.Failure? && Exists(fs, p) ==> r.error == NotADirectory(p)
  {
    if IsDir(fs, p) then Success(listing(p))
    else if p in fs then Failure(NotADirectory(p))
    else Failure(FileNotFound(p))
  }

  /** shutil.rmtree(p): removes p and everything below it. */
  function RemoveTree<C>(fs: Fs<C>, p: Path): (r: Result<Fs<C>>)
    ensures r.Success? <==> IsDir(fs, p)
    ensures r.Success? ==> forall q :: q in r.value <==> q in fs && !(p <= q)
    ensures r.Success? ==> forall q :: q in r.value ==> r.value[q] == fs[q]
    ensures r.Success? && WellFormed(fs) ==> WellFormed(r.value)
  {
    if IsDir(fs, p) then Success(map q | q in fs && !(p <= q) :: fs[q])
    else if p in fs then Failure(NotADirectory(p))
    else Failure(FileNotFound(p))
  }

  /** The part of os.makedirs(p, exist_ok) that starts at the k-th prefix of p:
      each missing directory p[..k], ..., p[..|p|] is created in turn. */
  function MakeDirsFrom<C>(fs: Fs<C>, p: Path, k: nat, existOk: bool): (r: Result<Fs<C>>)
    requires 1 <= k <= |p|
    ensures r.Success? <==> !FileOnTheWay(fs, p, k) && !IsFile(fs, p) && (existOk || p !in fs)
    ensures r.Success? ==> Extends(fs, r.value)
    ensures r.Success? ==> forall m :: k <= m <= |p| ==> IsDir(r.value, p[..m])
    ensures r.Success? ==> forall q :: q in r.value && q !in fs ==> q <= p && k <= |q| && r.value[q].Dir?
    decreases |p| - k
  {
    var q := p[..k];
    if q in fs && fs[q].File? then
      assert k < |p| ==> p[..k] == q && FileOnTheWay(fs, p, k);
      assert k == |p| ==> q == p;
      Failure(if k == |p| then FileExists(q) else NotADirectory(q))
    else if k == |p| then
      assert q == p;
      if q !in fs then Success(fs[q := Dir])
      else if existOk then Success(fs)
      else Failure(FileExists(q))
    else
      var fs' := if q in fs then fs else fs[q := Dir];
      assert forall m :: k < m <= |p| ==> (p[..m] in fs' <==> p[..m] in fs) && (p[..m] in fs ==> fs'[p[..m]] == fs[p[..m]]) by {
        forall m | k < m <= |p| ensures p[..m] != q {
          assert |p[..m]| != |q|;
        }
      }
      var r := MakeDirsFrom(fs', p, k + 1, existOk);
      assert !IsFile(fs, q) ==> (FileOnTheWay(fs, p, k) <==> FileOnTheWay(fs', p, k + 1));
      r
  }

  /** os.makedirs(p, exist_ok): creates p and every missing directory on the way;
      fails if one of them is a file, or if p exists and exist_ok is false. */
  function MakeDirs<C>(fs: Fs<C>, p: Path, existOk: bool): (r: Result<Fs<C>>)
    ensures r.Success? <==> |p| > 0 && !FileOnTheWay(fs, p, 1) && !IsFile(fs, p) && (existOk || p !in fs)
    ensures r.Success? ==> Extends(fs, r.value) && IsDir(r.value, p)
    ensures r.Success? ==> forall m :: 1 <= m <= |p| ==> IsDir(r.value, p[..m])
    ensures r.Success? ==> forall q :: q in r.value && q !in fs ==> q <= p && |q| > 0 && r.value[q].Dir?
    ensures r.Success? && WellFormed(fs) ==> WellFormed(r.value)
  {
    if |p| == 0 then Failure(FileNotFound(p))
    else
      assert p[..|p|] == p;
      var r := MakeDirsFrom(fs, p, 1, existOk);
      assert r.Success? && WellFormed(fs) ==> WellFormed(r.value) by {
        if r.Success? && WellFormed(fs) {
          forall q | q in r.value && |q| > 1 ensures IsDir(r.value, q[..|q| - 1]) {
            if q !in fs {
              assert q == p[..|q|] && q[..|q| - 1] == p[..|q| - 1];
            }
          }
        }
      }
      r
  }

  /** Epochs.save(p) with MNE's default overwrite=False: writes a new file into an
      existing directory, and refuses to replace an existing entry. */
  function Save<C>(fs: Fs<C>, p: Path, c: C): (r: Result<Fs<C>>)
    ensures r.Success? <==> p !in fs && ParentIsDir(fs, p)
    ensures r.Success? ==> r.value == fs[p := File(c)]
    ensures r.Success? && WellFormed(fs) ==> WellFormed(r.value)
  {
    if p in fs then Failure(FileExists(p))
    else if !ParentIsDir(fs, p) then Failure(FileNotFound(p))
    else Success(fs[p := File(c)])
  }

  /** The save-directory routine every adapter runs: remove p if it exists, then
      os.makedirs(p). Destructive: whatever an earlier run left in p is gone. */
  function Recreate<C>(fs: Fs<C>, p: Path): (r: Result<Fs<C>>)
    ensures r.Success? <==> |p| > 0 && !IsFile(fs, p) && !FileOnTheWay(fs, p, 1)
    ensures r.Success? && WellFormed(fs) ==> WellFormed(r.value) && EmptyDir(r.value, p)
    ensures r.Success? ==> forall m :: 1 <= m <= |p| ==> IsDir(r.value, p[..m])
    ensures r.Success? ==> SameOutside(fs, r.value, p)
  {
    var cleared :- if Exists(fs, p) then RemoveTree(fs, p) else Success(fs);
    assert forall m :: 1 <= m < |p| ==> (IsFile(cleared, p[..m]) <==> IsFile(fs, p[..m])) by {
      forall m | 1 <= m < |p| ensures !(p <= p[..m]) {
      }
    }
    var r := MakeDirs(cleared, p, false);
    assert r.Success? && WellFormed(fs) ==> forall q :: q in r.value && p <= q ==> q == p by {
      if r.Success? && WellFormed(fs) {
        forall q | q in r.value && p <= q ensures q == p {
          if q in cleared && q != p && p !in fs {
            assert q[..|p|] == p;
            AncestorPresent(fs, q, |p|);
          }
        }
      }
    }
    r
  }

  /** With every directory on the way to p present and p absent, os.makedirs
      only adds p. */
  lemma {:induction false} MakeDirsFromOnlyAddsLeaf<C>(fs: Fs<C>, p: Path, k: nat, existOk: bool)
    requires 1 <= k <= |p|
    requires forall m :: k <= m < |p| ==> IsDir(fs, p[..m])
    requires p !in fs
    ensures MakeDirsFrom(fs, p, k, existOk) == Success(fs[p := Dir])
    decreases |p| - k
  {
    if k < |p| {
      MakeDirsFromOnlyAddsLeaf(fs, p, k + 1, existOk);
    } else {
      assert p[..k] == p;
    }
  }

  /** Running the save-directory routine twice leaves the same state as running it
      once: the second run removes only the empty directory the first one made and
      makes it again. */
  lemma RecreateIdempotent<C>(fs: Fs<C>, p: Path)
    requires WellFormed(fs) && Recreate(fs, p).Success?
    ensures Recreate(Recreate(fs, p).value, p) == Recreate(fs, p)
  {
    var once := Recreate(fs, p).value;
    GrownUnderReflexive(once, p, (s: string, n: string, c: C) => false);
    RecreateAfterGrow(fs, once, once, p, (s: string, n: string, c: C) => false);
  }

  /** Clearing d again after a loop that kept to d gives back the state the first
      clearing left: everything the loop made lies inside d and is removed, and
      nothing else is touched. */
  lemma RecreateAfterGrow<C>(fs: Fs<C>, cleared: Fs<C>, fin: Fs<C>, d: Path, ok: (string, string, C) -> bool)
    requires WellFormed(fs)
    requires Recreate(fs, d) == Success(cleared)
    requires GrownUnder(cleared, fin, d, ok)
    ensures Recreate(fin, d) == Success(cleared)
  {
    RecreateThenGrow(fs, cleared, fin, d, ok);
    var removed := RemoveTree(fin, d).value;
    assert forall q :: q in removed <==> q in cleared && q != d;
    assert forall m :: 1 <= m < |d| ==> IsDir(removed, d[..m]) by {
      forall m | 1 <= m < |d| ensures d[..m] != d && IsDir(cleared, d[..m]) {
        assert |d[..m]| != |d|;
      }
    }
    MakeDirsFromOnlyAddsLeaf(removed, d, 1, false);
    assert d[..|d|] == d;
    assert removed[d := Dir] == cleared;
  }

  /** f"{save_path_root}/{name}": the directory an adapter's __create_save_directory
      owns, one level below the output root. */
  function DatasetDir(root: Path, name: string): (d: Path)
    ensures |d| == |root| + 1 && root < d && d[|root|] == name
  {
    root + [name]
  }

  /** __create_save_directory, the same in every adapter: the dataset directory is
      removed if it exists and made again. It fails exactly where a file is in the
      way; afterwards the directory is empty, nothing outside it has changed, and
      clearing it once more changes nothing. */
  function CreateSaveDirectory<C>(fs: Fs<C>, root: Path, name: string): (r: Result<Fs<C>>)
    ensures r.Success? <==> !IsFile(fs, DatasetDir(root, name)) && !FileOnTheWay(fs, DatasetDir(root, name), 1)
    ensures r.Success? && WellFormed(fs) ==> EmptyDir(r.value, DatasetDir(root, name))
    ensures r.Success? ==> SameOutside(fs, r.value, DatasetDir(root, name))
    ensures r.Success? && WellFormed(fs) ==> Recreate(r.value, DatasetDir(root, name)) == r
  {
    var d := DatasetDir(root, name);
    assert WellFormed(fs) && Recreate(fs, d).Success? ==> Recreate(Recreate(fs, d).value, d) == Recreate(fs, d) by {
      if WellFormed(fs) && Recreate(fs, d).Success? {
        RecreateIdempotent(fs, d);
      }
    }
    Recreate(fs, d)
  }

  /** An adapter's subject loop keeps to its save directory d: it only adds entries,
      and each entry it adds is a directory on the way to d (never the working
      directory) or d itself, a subject
      directory directly inside d, or a file one level deeper that `ok` accepts for
      that subject folder name and file name. */
  ghost predicate GrownUnder<C>(a: Fs<C>, b: Fs<C>, d: Path, ok: (string, string, C) -> bool)
  {
    && Extends(a, b)
    && forall q :: q in b && q !in a ==> Made(d, q, b[q], ok)
  }

  ghost predicate Made<C>(d: Path, q: Path, n: Node<C>, ok: (string, string, C) -> bool)
  {
    || (0 < |q| && q <= d && n.Dir?)
    || (|q| == |d| + 1 && d <= q && n.Dir?)
    || (|q| == |d| + 2 && d <= q && n.File? && ok(q[|d|], q[|d| + 1], n.content))
  }

  lemma GrownUnderReflexive<C>(a: Fs<C>, d: Path, ok: (string, string, C) -> bool)
    ensures GrownUnder(a, a, d, ok)
  {
  }

  lemma GrownUnderTransitive<C>(a: Fs<C>, b: Fs<C>, c: Fs<C>, d: Path, ok: (string, string, C) -> bool)
    requires GrownUnder(a, b, d, ok) && GrownUnder(b, c, d, ok)
    ensures GrownUnder(a, c, d, ok)
  {
  }

  /** Every entry b adds strictly inside d belongs to subject folder s. */
  ghost predicate OnlyFor<C>(a: Fs<C>, b: Fs<C>, d: Path, s: string)
  {
    forall q :: q in b && q !in a && d < q ==> q[|d|] == s
  }

  lemma OnlyForTransitive<C>(a: Fs<C>, b: Fs<C>, c: Fs<C>, d: Path, s: string)
    requires Extends(a, b) && OnlyFor(a, b, d, s) && OnlyFor(b, c, d, s)
    ensures OnlyFor(a, c, d, s)
  {
  }

  /** Every entry b adds strictly inside d belongs to the folder of one of names. */
  ghost predicate OnlyForListed<C>(a: Fs<C>, b: Fs<C>, d: Path, names: seq<string>)
  {
    forall q :: q in b && q !in a && d < q ==> q[|d|] in names
  }

  /** A pass for the first subject followed by passes for the rest adds entries
      only in the folders of the whole list. */
  lemma OnlyForListedStep<C>(a: Fs<C>, b: Fs<C>, c: Fs<C>, d: Path, names: seq<string>)
    requires |names| > 0
    requires Extends(a, b) && OnlyFor(a, b, d, names[0]) && OnlyForListed(b, c, d, names[1..])
    ensures OnlyForListed(a, c, d, names)
  {
    forall q | q in c && q !in a && d < q
      ensures q[|d|] in names
    {
      assert names == [names[0]] + names[1..];
    }
  }

  /** Once d has been emptied, everything strictly inside it afterwards was added,
      so it lies in the folder of one of names. */
  lemma ListedAfterClearing<C>(cleared: Fs<C>, fin: Fs<C>, d: Path, names: seq<string>)
    requires OnlyForListed(cleared, fin, d, names)
    ensures EmptyDir(cleared, d) ==> forall q :: q in fin && d < q ==> q[|d|] in names
  {
    forall q | EmptyDir(cleared, d) && q in fin && d < q
      ensures q[|d|] in names
    {
      assert q !in cleared;
    }
  }

  /** Making a subject directory inside d stays within GrownUnder. */
  lemma MakeSubjectDir<C>(fs: Fs<C>, d: Path, s: string, existOk: bool, ok: (string, string, C) -> bool)
    requires MakeDirs(fs, d + [s], existOk).Success?
    ensures GrownUnder(fs, MakeDirs(fs, d + [s], existOk).value, d, ok)
    ensures OnlyFor(fs, MakeDirs(fs, d + [s], existOk).value, d, s)
  {
    var r := MakeDirs(fs, d + [s], existOk).value;
    forall q | q in r && q !in fs ensures Made(d, q, r[q], ok) {
      assert q <= d + [s];
      if |q| <= |d| {
        assert q <= d;
      }
    }
    forall q | q in r && q !in fs && d < q ensures q[|d|] == s {
      assert q <= d + [s];
    }
  }

  /** Saving an accepted file into a subject directory inside d stays within GrownUnder. */
  lemma SaveSubjectFile<C>(fs: Fs<C>, d: Path, s: string, n: string, c: C, ok: (string, string, C) -> bool)
    requires Save(fs, d + [s, n], c).Success?
    requires ok(s, n, c)
    ensures GrownUnder(fs, Save(fs, d + [s, n], c).value, d, ok)
    ensures OnlyFor(fs, Save(fs, d + [s, n], c).value, d, s)
  {
    var q := d + [s, n];
    assert d <= q && q[|d|] == s && q[|d| + 1] == n;
  }

  lemma PrefixIsSlice<T>(q: seq<T>, d: seq<T>)
    requires q <= d
    ensures d[..|q|] == q
  {
  }

  /** A file outside d after a change that keeps everything outside d was there,
      the same, before it. */
  lemma FileOutsideKept<C>(a: Fs<C>, b: Fs<C>, d: Path, p: Path)
    requires SameOutside(a, b, d) && IsFile(b, p) && !(d <= p)
    ensures p in a && a[p] == b[p]
  {
  }

  /** After Recreate(d) and a loop that keeps to d, what lies strictly inside d is
      exactly what the loop made, and everything outside d is as it was before. */
  lemma RecreateThenGrow<C>(fs: Fs<C>, cleared: Fs<C>, fin: Fs<C>, d: Path, ok: (string, string, C) -> bool)
    requires Recreate(fs, d) == Success(cleared)
    requires GrownUnder(cleared, fin, d, ok)
    ensures IsDir(fin, d)
    ensures forall q :: q in fin && q !in cleared ==> d < q
    ensures WellFormed(fs) ==> forall q :: q in fin && d < q ==> Made(d, q, fin[q], ok)
    ensures SameOutside(fs, fin, d)
  {
    forall q | q in fin && q !in cleared ensures d < q {
      assert Made(d, q, fin[q], ok);
      if |q| <= |d| {
        assert 0 < |q| && q <= d;
        PrefixIsSlice(q, d);
      }
    }
  }
}
