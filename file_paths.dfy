/**
  POSIX path strings as the backend builds and takes them apart: `os.path.join`,
  `Path.is_absolute`, `Path.name` and `Path.stem`. Paths are plain strings; "." and
  repeated-slash components are not normalised away.
*/
module FilePaths {
  import opened Strings

  /** `Path(p).is_absolute()` */
  predicate IsAbsolute(p: string)
  {
    StartsWith(p, "/")
  }

  /** `os.path.join(dir, name)` (and `Path(dir) / name`): an absolute `name` replaces `dir`;
      otherwise a separator is inserted unless `dir` is empty or already ends in one. */
  function Join(dir: string, name: string): (r: string)
    ensures EndsWith(r, name)
    ensures !IsAbsolute(name) ==> StartsWith(r, dir)
  {
    if IsAbsolute(name) then name
    else if dir == "" || EndsWith(dir, "/") then dir + name
    else dir + "/" + name
  }

  /** How `os.path.join` combines: an absolute name discards the directory, an empty
      directory leaves the name alone, and otherwise exactly one separator stands between
      the directory (less one trailing slash, if it has one) and the name. */
  lemma JoinCases(dir: string, name: string)
    ensures IsAbsolute(name) ==> Join(dir, name) == name
    ensures !IsAbsolute(name) && dir == "" ==> Join(dir, name) == name
    ensures !IsAbsolute(name) && dir != "" ==>
              exists d :: (dir == d || dir == d + "/") && Join(dir, name) == d + "/" + name
  {
    if !IsAbsolute(name) && dir != "" {
      if EndsWith(dir, "/") {
        var d := dir[..|dir| - 1];
        assert dir == d + "/" by {
          assert dir[|dir| - 1..] == "/";
        }
        assert Join(dir, name) == d + "/" + name;
      } else {
        assert Join(dir, name) == dir + "/" + name;
      }
    }
  }

  /** The end of the first `i` characters of `p` once trailing slashes are dropped. */
  function TrimSlashes(p: string, i: nat): (e: nat)
    requires i <= |p|
    ensures e <= i && (e == 0 || p[e - 1] != '/')
    ensures forall j :: e <= j < i ==> p[j] == '/'
    decreases i
  {
    if i > 0 && p[i - 1] == '/' then TrimSlashes(p, i - 1) else i
  }

  /** `Path(p).name`: the last component (what follows the last slash, as `rfind` locates
      it), after any trailing slashes are dropped. */
  function Name(p: string): (r: string)
    ensures forall i :: 0 <= i < |r| ==> r[i] != '/'
  {
    var e := TrimSlashes(p, |p|);
    var k := LastIndexOf(p, '/', e);
    var r := p[k + 1..e];
    assert forall i :: 0 <= i < |r| ==> r[i] == p[k + 1 + i];
    r
  }

  /** `Path(p).stem`: the name without its last suffix (from the last dot, as `rfind`
      locates it); a leading dot or a trailing dot does not start a suffix. */
  function Stem(p: string): (r: string)
    ensures StartsWith(Name(p), r)
  {
    var n := Name(p);
    var i := LastIndexOf(n, '.', |n|);
    if 0 < i < |n| - 1 then n[..i] else n
  }

  /** The name of a path that does not end in a slash is what follows its last slash. */
  lemma NameAfter(p: string, k: int)
    requires p == "" || p[|p| - 1] != '/'
    requires -1 <= k < |p| && (k >= 0 ==> p[k] == '/')
    requires forall j :: k < j < |p| ==> p[j] != '/'
    ensures Name(p) == p[k + 1..]
  {
    assert TrimSlashes(p, |p|) == |p|;
    LastIndexOfIs(p, '/', k);
  }

  /** A name without slashes is the name of any path it is joined onto. */
  lemma NameOfJoin(dir: string, name: string)
    requires name != "" && forall i :: 0 <= i < |name| ==> name[i] != '/'
    ensures Name(Join(dir, name)) == name
  {
    var r := Join(dir, name);
    assert !IsAbsolute(name) by { assert name[..1][0] == name[0]; }
    if dir == "" {
      NameOfSuffix([], name);
    } else if EndsWith(dir, "/") {
      assert dir == dir[..|dir| - 1] + "/";
      NameOfSuffix(dir[..|dir| - 1], name);
    } else {
      NameOfSuffix(dir, name);
    }
  }

  /** The name of `prefix/name`, and of `name` alone, is `name` when it has no slash. */
  lemma NameOfSuffix(prefix: string, name: string)
    requires name != "" && forall i :: 0 <= i < |name| ==> name[i] != '/'
    ensures Name(prefix + "/" + name) == name
    ensures prefix == [] ==> Name(name) == name
  {
    var r := prefix + "/" + name;
    var k := |prefix|;
    assert r[k + 1..] == name;
    assert r[|r| - 1] == name[|name| - 1];
    forall j | k < j < |r| ensures r[j] != '/' {
      assert r[j] == name[j - k - 1];
    }
    NameAfter(r, k);
    if prefix == [] {
      NameAfter(name, -1);
    }
  }

  /** In `base.ext`, with no dot in either part, the last dot is the one after `base`. */
  lemma LastDotOf(base: string, ext: string)
    requires forall i :: 0 <= i < |base| ==> base[i] != '.'
    requires forall i :: 0 <= i < |ext| ==> ext[i] != '.'
    ensures LastIndexOf(base + "." + ext, '.', |base + "." + ext|) == |base|
    ensures (base + "." + ext)[..|base|] == base
  {
    var n := base + "." + ext;
    forall j | |base| < j < |n| ensures n[j] != '.' {
      assert n[j] == ext[j - |base| - 1];
    }
    LastIndexOfIs(n, '.', |base|);
  }

  /** The stem of `dir/base.ext` is `base`, for a base without dots and a one-part suffix. */
  lemma StemOfJoin(dir: string, base: string, ext: string)
    requires base != "" && forall i :: 0 <= i < |base| ==> base[i] != '/' && base[i] != '.'
    requires ext != "" && forall i :: 0 <= i < |ext| ==> ext[i] != '/' && ext[i] != '.'
    ensures Stem(Join(dir, base + "." + ext)) == base
  {
    var n := base + "." + ext;
    forall i | 0 <= i < |n| ensures n[i] != '/' {
      if i < |base| { assert n[i] == base[i]; }
      else if i > |base| { assert n[i] == ext[i - |base| - 1]; }
    }
    NameOfJoin(dir, n);
    LastDotOf(base, ext);
  }
}
