/** internal/rules/fetch.go: fetching rule sets, installed only once their digest matches. */
module Rules {
  import opened Wrappers
  import opened Base64

  type Content = seq<Byte>

  /** What one download leaves behind in the partial file. */
  datatype Download = NotStarted | Interrupted(partial: Content) | Complete(content: Content)

  /** The outside world's part in fetching one file. */
  datatype World = World(
    published: Option<string>, readable: bool, downloads: nat -> Download, removes: nat -> bool, renames: bool)

  datatype Failure = NoDigest | DownloadFailed | DigestMismatch | RenameFailed

  const FILES := ["geoip.dat", "geosite.dat"]

  function Part(target: string): string { target + ".part" }

  function Attempts(configured: int): nat { if configured < 1 then 1 else configured }

  /** At least one attempt, and otherwise as many as configured. */
  lemma AttemptsIsMax(configured: int)
    ensures Attempts(configured) >= 1 && Attempts(configured) >= configured
    ensures Attempts(configured) == 1 || Attempts(configured) == configured
  {
  }

  /** The n-th download has the wanted digest. */
  predicate Good(sha: Content -> string, w: World, n: nat) {
    w.published.Some? && w.downloads(n).Complete? && sha(w.downloads(n).content) == w.published.value
  }

  predicate Holds(files: map<string, Content>, target: string, sha: Content -> string, want: string) {
    target in files && sha(files[target]) == want
  }

  predicate Same(a: map<string, Content>, b: map<string, Content>, path: string) {
    (path in a <==> path in b) && (path in a && path in b ==> a[path] == b[path])
  }

  /** The disks agree outside these paths. */
  predicate SameOutside(a: map<string, Content>, b: map<string, Content>, paths: set<string>) {
    a - paths == b - paths
  }

  lemma OutsideIsSame(a: map<string, Content>, b: map<string, Content>, paths: set<string>, path: string)
    requires SameOutside(a, b, paths) && path !in paths
    ensures Same(a, b, path)
  {
    assert path in a <==> path in a - paths;
    assert path in b <==> path in b - paths;
    if path in a { assert (a - paths)[path] == (b - paths)[path]; }
  }

  lemma OutsideGrows(a: map<string, Content>, b: map<string, Content>, paths: set<string>, more: set<string>)
    requires SameOutside(a, b, paths) && paths <= more
    ensures SameOutside(a, b, more)
  {
    assert a - more == (a - paths) - more && b - more == (b - paths) - more;
  }

  /** A file nothing was found wrong with, or one of the first downloads good and moved into place. */
  predicate Fetchable(files: map<string, Content>, target: string, sha: Content -> string, w: World, attempts: nat) {
    w.published.Some? &&
    ((w.readable && Holds(files, target, sha, w.published.value))
     || (w.renames && exists n: nat :: n < attempts && Good(sha, w, n)))
  }

  lemma FetchableSame(a: map<string, Content>, b: map<string, Content>, target: string,
                      sha: Content -> string, w: World, attempts: nat)
    requires Same(a, b, target)
    ensures Fetchable(a, target, sha, w, attempts) == Fetchable(b, target, sha, w, attempts)
  {
  }

  class Fetcher {
    const attempts: int
    const sha: Content -> string
    /** The files on disk, by path. */
    var files: map<string, Content>

    constructor (attempts: int, sha: Content -> string, files: map<string, Content>)
      ensures this.attempts == attempts && this.sha == sha && this.files == files
    {
      this.attempts, this.sha, this.files := attempts, sha, files;
    }

    method Save(path: string, d: Download)
      modifies this
      ensures files == if d.NotStarted? then old(files)
                       else old(files)[path := if d.Complete? then d.content else d.partial]
    {
      match d
      case NotStarted =>
      case Interrupted(partial) => files := files[path := partial];
      case Complete(content) => files := files[path := content];
    }

    /** fetchOne; None is its nil error. */
    method FetchOne(target: string, w: World) returns (failure: Option<Failure>, downloads: nat)
      modifies this
      ensures failure.None? <==> Fetchable(old(files), target, sha, w, Attempts(attempts))
      ensures failure.None? ==> Holds(files, target, sha, w.published.value)
      ensures failure.Some? ==> SameOutside(files, old(files), {Part(target)})
      ensures SameOutside(files, old(files), {target, Part(target)})
      ensures downloads <= Attempts(attempts)
      ensures downloads == 0 <==>
              w.published.None? || (w.readable && Holds(old(files), target, sha, w.published.value))
      ensures forall n: nat :: n + 1 < downloads ==> !Good(sha, w, n)
      ensures downloads > 0 && !Good(sha, w, downloads - 1) ==> downloads == Attempts(attempts)
      ensures failure == if w.published.None? then Some(NoDigest)
                         else if downloads == 0 then None
                         else if Good(sha, w, downloads - 1) then (if w.renames then None else Some(RenameFailed))
                         else if w.downloads(downloads - 1).Complete? then Some(DigestMismatch)
                         else Some(DownloadFailed)
    {
      downloads := 0;
      assert Part(target) != target by { assert |Part(target)| == |target| + 5; }
      if w.published.None? {
        return Some(NoDigest), 0;
      }
      var want := w.published.value;
      if w.readable && target in files && sha(files[target]) == want {
        return None, 0;
      }
      var most := Attempts(attempts);
      var part := Part(target);
      var lastErr: Option<Failure> := None;
      while downloads < most
        invariant downloads <= most
        invariant downloads > 0 ==>
            lastErr == Some(if w.downloads(downloads - 1).Complete? then DigestMismatch else DownloadFailed)
        invariant forall n: nat :: n < downloads ==> !Good(sha, w, n)
        invariant SameOutside(files, old(files), {part})
      {
        var d := w.downloads(downloads);
        Save(part, d);
        downloads := downloads + 1;
        if !d.Complete? {
          lastErr := Some(DownloadFailed);
          continue;
        }
        if sha(d.content) != want {
          if w.removes(downloads - 1) {
            files := files - {part};
          }
          lastErr := Some(DigestMismatch);
          continue;
        }
        assert Good(sha, w, downloads - 1);
        OutsideGrows(files, old(files), {part}, {target, part});
        if !w.renames {
          return Some(RenameFailed), downloads;
        }
        files := (files - {part})[target := files[part]];
        return None, downloads;
      }
      OutsideGrows(files, old(files), {part}, {target, part});
      failure := lastErr;
    }

    /** Fetch over both rule sets; `worlds` gives each file its own digest and downloads. */
    method Fetch(mkdir: bool, worlds: string -> World) returns (ok: bool)
      modifies this
      ensures ok <==> mkdir && forall i :: 0 <= i < |FILES| ==>
                Fetchable(old(files), FILES[i], sha, worlds(FILES[i]), Attempts(attempts))
      ensures ok ==> forall i :: 0 <= i < |FILES| ==> Verified(files, FILES[i], worlds(FILES[i]))
      ensures forall i :: 0 <= i < |FILES| ==>
                Same(files, old(files), FILES[i]) || Verified(files, FILES[i], worlds(FILES[i]))
      ensures SameOutside(files, old(files), PathsUsed())
    {
      if !mkdir {
        return false;
      }
      PartsApart();
      for i := 0 to |FILES|
        invariant forall j :: 0 <= j < i ==> Verified(files, FILES[j], worlds(FILES[j]))
        invariant forall j :: 0 <= j < i ==>
            Fetchable(old(files), FILES[j], sha, worlds(FILES[j]), Attempts(attempts))
        invariant forall j :: i <= j < |FILES| ==> Same(files, old(files), FILES[j])
        invariant SameOutside(files, old(files), PathsUsed())
      {
        ghost var before := files;
        var name := FILES[i];
        FetchableSame(files, old(files), name, sha, worlds(name), Attempts(attempts));
        var failure, _ := FetchOne(name, worlds(name));
        OutsideGrows(files, before, {name, Part(name)}, PathsUsed());
        forall j | 0 <= j < |FILES| && j != i ensures Same(files, before, FILES[j]) {
          OutsideIsSame(files, before, {name, Part(name)}, FILES[j]);
        }
        if failure.Some? {
          OutsideIsSame(files, before, {Part(name)}, name);
          return false;
        }
      }
      ok := true;
    }

    predicate Verified(files: map<string, Content>, name: string, w: World) {
      w.published.Some? && Holds(files, name, sha, w.published.value)
    }
  }

  /** The rule sets and their partial files. */
  function PathsUsed(): set<string> {
    {FILES[0], FILES[1], Part(FILES[0]), Part(FILES[1])}
  }

  /** No partial file shares a path with a rule set. */
  lemma PartsApart()
    ensures FILES[0] != FILES[1]
    ensures forall i, j :: 0 <= i < |FILES| && 0 <= j < |FILES| ==> FILES[i] != Part(FILES[j])
  {
    assert FILES[0][3] == 'i' && FILES[1][3] == 's';
    forall i, j | 0 <= i < |FILES| && 0 <= j < |FILES| ensures FILES[i] != Part(FILES[j]) {
      assert |Part(FILES[j])| == |FILES[j]| + 5;
      assert |FILES[0]| == 9 && |FILES[1]| == 11;
    }
  }
}
