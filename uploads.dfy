/** The image-upload helper that the car, picnic-spot and last-trip
    endpoints share: the client's filename is split into base and
    extension, the base is sanitised, and the file is stored under a name
    made of the safe base, a timestamp suffix and the original extension. */
module Uploads {
  import opened Wrappers
  import opened DbOps
  import PyText

  /** The characters the sanitiser keeps: `[A-Za-z0-9_-]`. */
  predicate Allowed(c: char)
  {
    ('A' <= c <= 'Z') || ('a' <= c <= 'z') || ('0' <= c <= '9') || c == '_' || c == '-'
  }

  predicate AllAllowed(s: string)
  {
    forall i | 0 <= i < |s| :: Allowed(s[i])
  }

  /** `re.sub(r"[^A-Za-z0-9_-]+", "_", s)`: each maximal run of other
      characters becomes one underscore. */
  function Sanitize(s: string): (r: string)
    ensures |r| <= |s|
    ensures r == [] <==> s == []
    decreases |s|
  {
    if s == [] then []
    else if Allowed(s[0]) then [s[0]] + Sanitize(s[1..])
    else "_" + Sanitize(PyText.TrimStart(s[1..], c => !Allowed(c)))
  }

  /** `sanitize(base) or "image"`. */
  function SafeBase(base: string): string
  {
    if Sanitize(base) == [] then "image" else Sanitize(base)
  }

  /** The sanitiser writes only allowed characters. */
  lemma {:induction false} SanitizeAllowed(s: string)
    ensures AllAllowed(Sanitize(s))
    decreases |s|
  {
    if s != [] {
      if Allowed(s[0]) {
        SanitizeAllowed(s[1..]);
        assert Sanitize(s) == [s[0]] + Sanitize(s[1..]);
      } else {
        var rest := PyText.TrimStart(s[1..], c => !Allowed(c));
        SanitizeAllowed(rest);
        assert Sanitize(s) == "_" + Sanitize(rest);
      }
    }
  }

  /** A string of allowed characters is its own sanitised form. */
  lemma {:induction false} SanitizeFixed(s: string)
    requires AllAllowed(s)
    ensures Sanitize(s) == s
    decreases |s|
  {
    if s != [] {
      SanitizeFixed(s[1..]);
    }
  }

  /** Sanitising is idempotent, and so is `SafeBase`. */
  lemma SafeBaseIdempotent(base: string)
    ensures AllAllowed(SafeBase(base)) && SafeBase(base) != []
    ensures SafeBase(SafeBase(base)) == SafeBase(base)
    ensures Sanitize(Sanitize(base)) == Sanitize(base)
  {
    SanitizeAllowed(base);
    SanitizeFixed(Sanitize(base));
    assert AllAllowed("image");
    SanitizeFixed(SafeBase(base));
  }

  /** "image" stands in exactly for an empty base. */
  lemma SafeBaseEmpty(base: string)
    ensures SafeBase(base) == "image" <==> base == [] || Sanitize(base) == "image"
  {
  }

  /** The index of the last `c` in `s`, or -1. */
  function LastIndexOf(s: string, c: char): (i: int)
    ensures -1 <= i < |s|
    ensures i >= 0 ==> s[i] == c
    ensures forall j | i < j < |s| :: s[j] != c
    decreases |s|
  {
    if s == [] then -1
    else if s[|s| - 1] == c then |s| - 1
    else LastIndexOf(s[..|s| - 1], c)
  }

  /** `os.path.splitext` (POSIX): split at the last '.' after the last '/',
      unless everything between them is dots (a leading-dot name). */
  function SplitExt(p: string): (r: (string, string))
    ensures r.0 + r.1 == p
    ensures r.1 == [] || (r.1[0] == '.' && '/' !in r.1)
  {
    var sep := LastIndexOf(p, '/');
    var dot := LastIndexOf(p, '.');
    if dot > sep && exists k | sep + 1 <= k < dot :: p[k] != '.' then
      assert p[..dot] + p[dot..] == p;
      assert forall j | 0 <= j < |p[dot..]| :: p[dot..][j] == p[dot + j];
      (p[..dot], p[dot..])
    else (p, [])
  }

  /** `file.filename or "upload"`. */
  function Original(filename: Option<string>): string
  {
    if filename.Some? && filename.value != [] then filename.value else "upload"
  }

  /** The stored file name: safe base, "_", timestamp suffix, extension. */
  function StoredName(filename: Option<string>, suffix: string): string
  {
    var (base, ext) := SplitExt(Original(filename));
    SafeBase(base) + "_" + suffix + ext
  }

  /** The public path returned for a stored file. */
  function StoredPath(folder: string, filename: Option<string>, suffix: string): string
  {
    "/images/" + folder + "/" + StoredName(filename, suffix)
  }

  /** No client filename can lead out of the image folder: the stored name
      has no '/' (the base is sanitised and the extension follows the last
      '/'), so the path is the folder followed by one name. */
  lemma StoredNameStaysInFolder(filename: Option<string>, suffix: string)
    requires '/' !in suffix
    ensures '/' !in StoredName(filename, suffix)
  {
    var (base, ext) := SplitExt(Original(filename));
    SafeBaseIdempotent(base);
    var safe := SafeBase(base);
    assert '/' !in safe by {
      forall i | 0 <= i < |safe| ensures safe[i] != '/' {
        assert Allowed(safe[i]);
      }
    }
    assert StoredName(filename, suffix) == safe + "_" + suffix + ext;
  }

  /** The stored name keeps the client's extension and begins with the
      sanitised base. */
  lemma StoredNameShape(filename: Option<string>, suffix: string)
    ensures StoredName(filename, suffix) ==
            SafeBase(SplitExt(Original(filename)).0) + "_" + suffix + SplitExt(Original(filename)).1
    ensures SplitExt(Original(filename)).0 + SplitExt(Original(filename)).1 == Original(filename)
  {
  }

  /** `f` applied to matching elements of two sequences, built from the
      front the way the upload loop appends. */
  function ZipWith<A, B, C>(f: (A, B) -> C, xs: seq<A>, ys: seq<B>): (zs: seq<C>)
    requires |xs| == |ys|
    ensures |zs| == |xs|
    decreases |xs|
  {
    if xs == [] then []
    else
      var n := |xs| - 1;
      ZipWith(f, xs[..n], ys[..n]) + [f(xs[n], ys[n])]
  }

  lemma {:induction false} ZipWithAt<A, B, C>(f: (A, B) -> C, xs: seq<A>, ys: seq<B>, i: int)
    requires |xs| == |ys| && 0 <= i < |xs|
    ensures ZipWith(f, xs, ys)[i] == f(xs[i], ys[i])
    decreases |xs|
  {
    var n := |xs| - 1;
    if i < n {
      ZipWithAt(f, xs[..n], ys[..n], i);
    }
  }

  /** The paths returned for a list of files, one per file, in order. */
  function StoredPaths(folder: string, filenames: seq<Option<string>>, suffixes: seq<string>): seq<string>
    requires |suffixes| == |filenames|
  {
    ZipWith((f: Option<string>, s: string) => StoredPath(folder, f, s), filenames, suffixes)
  }

  /** Path `i` belongs to file `i`. */
  lemma StoredPathsAt(folder: string, filenames: seq<Option<string>>, suffixes: seq<string>, i: int)
    requires |suffixes| == |filenames| && 0 <= i < |filenames|
    ensures |StoredPaths(folder, filenames, suffixes)| == |filenames|
    ensures StoredPaths(folder, filenames, suffixes)[i] == StoredPath(folder, filenames[i], suffixes[i])
  {
    ZipWithAt((f: Option<string>, s: string) => StoredPath(folder, f, s), filenames, suffixes, i);
  }

  /** The name one uploaded file is stored under. */
  method NewName(filename: Option<string>, suffix: string) returns (newName: string)
    ensures newName == StoredName(filename, suffix)
  {
    var original := if filename.Some? && filename.value != [] then filename.value else "upload";
    var (base, ext) := SplitExt(original);
    var safe := Sanitize(base);
    if safe == [] {
      safe := "image";
    }
    newName := safe + "_" + suffix + ext;
  }

  /** The paths of the first `i + 1` files extend those of the first `i`. */
  lemma StoredPathsSnoc(folder: string, filenames: seq<Option<string>>, suffixes: seq<string>, i: int)
    requires |suffixes| == |filenames| && 0 <= i < |filenames|
    ensures StoredPaths(folder, filenames[..i + 1], suffixes[..i + 1]) ==
            StoredPaths(folder, filenames[..i], suffixes[..i]) + [StoredPath(folder, filenames[i], suffixes[i])]
  {
    assert filenames[..i + 1][..i] == filenames[..i] && suffixes[..i + 1][..i] == suffixes[..i];
  }

  /** The upload endpoints: 401 unless the form credentials verify;
      otherwise one stored path per file, in order. `suffixes` holds the
      clock reading taken for each file. */
  method UploadImages(admins: map<int, AdminRow>, username: string, password: string, folder: string,
                      filenames: seq<Option<string>>, suffixes: seq<string>)
    returns (r: Response<seq<string>>)
    requires |suffixes| == |filenames|
    ensures !VerifyAdmin(admins, username, password) ==> r == Error(401, "Unauthorized")
    ensures VerifyAdmin(admins, username, password) ==> r == Ok(StoredPaths(folder, filenames, suffixes))
  {
    var ok := exists id | id in admins :: admins[id] == AdminRow(username, password);
    if !ok {
      return Error(401, "Unauthorized");
    }
    var saved: seq<string> := [];
    var i := 0;
    while i < |filenames|
      invariant 0 <= i <= |filenames|
      invariant saved == StoredPaths(folder, filenames[..i], suffixes[..i])
    {
      var newName := NewName(filenames[i], suffixes[i]);
      var path := "/images/" + folder + "/" + newName;
      StoredPathsSnoc(folder, filenames, suffixes, i);
      saved := saved + [path];
      i := i + 1;
    }
    assert filenames[..i] == filenames && suffixes[..i] == suffixes;
    r := Ok(saved);
  }
}
