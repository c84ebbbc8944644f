/** Path strings of the delete suite (athena/bin/delete/util.c and util.h). */
module Paths {
  import opened Wrappers

  const MAXPATHLEN := 4096

  predicate IsDotfile(name: string) { name == "." || name == ".." }

  /** A deleted file is marked by renaming it to `.#name`. */
  predicate IsDeleted(name: string)
    ensures IsDeleted(name) ==> !IsDotfile(name)
  {
    |name| >= 2 && name[0] == '.' && name[1] == '#'
  }

  function Slash(s: string): (i: nat)
    ensures i <= |s| && '/' !in s[..i]
    ensures i < |s| ==> s[i] == '/'
  {
    if s == [] || s[0] == '/' then 0 else 1 + Slash(s[1..])
  }

  /** firstpart: the text before the first slash, and what follows that slash. */
  function FirstPart(s: string): (r: (string, string))
    ensures '/' !in r.0
    ensures s != "" ==> |r.1| < |s|
    ensures s == r.0 + "/" + r.1 || (s == r.0 && r.1 == "")
  {
    var i := Slash(s);
    if i == |s| then (s, "") else (s[..i], s[i + 1..])
  }

  /** lastpart: the text after the last slash.  (For a trailing slash the second search of the
      source finds that same slash again, so the answer is empty there too.) */
  function LastPart(s: string): (r: string)
    ensures '/' !in r && |r| <= |s| && r == s[|s| - |r|..]
    ensures r == s || s[|s| - |r| - 1] == '/'
  {
    if s == "" then ""
    else if s[|s| - 1] == '/' then ""
    else LastPart(s[..|s| - 1]) + [s[|s| - 1]]
  }

  /** append: joins a directory and a name; a result that is too long becomes empty. */
  function Append(path: string, name: string): string {
    if name == "" || path == "" then name
    else
      var buf := if path[|path| - 1] == '/' then path[..|path| - 1] else path;
      if |buf| + |name| + 2 > MAXPATHLEN then "" else buf + "/" + name
  }

  /** A joined path is the directory, a slash unless it ends in one, and the name. */
  lemma AppendText(path: string, name: string)
    requires path != "" && name != ""
    ensures var text := path + (if path[|path| - 1] == '/' then "" else "/") + name;
            Append(path, name) == if |text| < MAXPATHLEN then text else ""
  {
    if path[|path| - 1] == '/' {
      assert path[..|path| - 1] + "/" == path;
    }
  }

  // ----- Paths of several steps -----

  /** The names with slashes between them. */
  function Slashed(steps: seq<string>): string {
    if |steps| == 0 then "" else if |steps| == 1 then steps[0] else steps[0] + "/" + Slashed(steps[1..])
  }

  /** The text of the path that leads from `base` along `steps`. */
  function PathText(base: string, steps: seq<string>): string {
    if steps == [] then base
    else base + (if base == "" || base[|base| - 1] == '/' then "" else "/") + Slashed(steps)
  }

  /** A name as a directory may hold it. */
  predicate Plain(name: string) { name != "" && '/' !in name }

  lemma PathTextCons(base: string, name: string, more: seq<string>)
    requires Plain(name) && more != []
    ensures PathText(base, [name] + more) == PathText(PathText(base, [name]), more)
    ensures PathText(base, [name]) != "" && PathText(base, [name])[|PathText(base, [name])| - 1] != '/'
  {
    assert ([name] + more)[1..] == more;
    assert name[|name| - 1] in name;
    var start := base + if base == "" || base[|base| - 1] == '/' then "" else "/";
    assert PathText(base, [name]) == start + name;
    assert PathText(base, [name])[|start| + |name| - 1] == name[|name| - 1];
    assert start + (name + "/" + Slashed(more)) == (start + name) + "/" + Slashed(more);
  }

  lemma LastPartSnoc(s: string, c: char)
    requires c != '/'
    ensures LastPart(s + [c]) == LastPart(s) + [c]
  {
    assert (s + [c])[..|s|] == s;
  }

  lemma {:induction false} LastPartAfterSlash(dir: string, name: string)
    requires '/' !in name && (dir == "" || dir[|dir| - 1] == '/')
    ensures LastPart(dir + name) == name
  {
    if name == "" {
      assert dir + name == dir;
    } else {
      var init, last := name[..|name| - 1], name[|name| - 1];
      assert name == init + [last] && last in name;
      assert dir + name == (dir + init) + [last];
      LastPartAfterSlash(dir, init);
      LastPartSnoc(dir + init, last);
      hide LastPart;
    }
  }

  /** The last part of a joined path is the name that was appended. */
  lemma LastPartOfAppend(path: string, name: string)
    requires '/' !in name && Append(path, name) != ""
    ensures LastPart(Append(path, name)) == name
  {
    var s := Append(path, name);
    if name == "" || path == "" {
      LastPartAfterSlash("", name);
      assert "" + name == name;
    } else {
      var buf := if path[|path| - 1] == '/' then path[..|path| - 1] else path;
      LastPartAfterSlash(buf + "/", name);
    }
  }

  ghost predicate OccursAt(s: string, sub: string, i: nat) { i <= |s| && sub <= s[i..] }

  /** strrindex: the last place where `sub` occurs. */
  method StrRIndex(s: string, sub: string) returns (r: Option<nat>)
    requires sub != ""
    ensures r.None? ==> forall j: nat :: !OccursAt(s, sub, j)
    ensures r.Some? ==> OccursAt(s, sub, r.value) && forall j | r.value < j :: !OccursAt(s, sub, j)
  {
    if |s| == 0 {
      return None;
    }
    var ptr := |s| - 1;
    ptr := SkipBack(s, sub, ptr);
    while ptr != 0
      invariant 0 <= ptr < |s|
      invariant forall j | ptr < j :: !OccursAt(s, sub, j)
    {
      if sub <= s[ptr..] {
        return Some(ptr);
      }
      assert !OccursAt(s, sub, ptr);
      ptr := ptr - 1;
      ptr := SkipBack(s, sub, ptr);
    }
    if sub <= s[ptr..] {
      assert OccursAt(s, sub, 0);
      return Some(0);
    } else {
      assert !OccursAt(s, sub, 0);
      return None;
    }
  }

  method SkipBack(s: string, sub: string, from: nat) returns (ptr: nat)
    requires sub != "" && from < |s|
    requires forall j | from < j :: !OccursAt(s, sub, j)
    ensures ptr <= from
    ensures forall j | ptr < j :: !OccursAt(s, sub, j)
  {
    ptr := from;
    while s[ptr] != sub[0] && ptr != 0
      invariant 0 <= ptr <= from
      invariant forall j | ptr < j :: !OccursAt(s, sub, j)
      decreases ptr
    {
      assert !OccursAt(s, sub, ptr);
      ptr := ptr - 1;
    }
  }

  /** The last deletion mark in `s` is at `i`. */
  ghost predicate LastMark(s: string, i: nat) {
    OccursAt(s, ".#", i) && forall j | i < j :: !OccursAt(s, ".#", j)
  }

  lemma WithoutTwo(name: string, user: string, at: nat)
    requires at + 2 <= |name| && |user| == |name| - 2
    requires forall k | 0 <= k < at :: user[k] == name[k]
    requires forall k | at <= k < |user| :: user[k] == name[k + 2]
    ensures user == name[..at] + name[at + 2..]
  {
  }

  /** convert_to_user_name: takes the last deletion mark out of a path, in place.  The source
      calls it only on paths that have one. */
  method ConvertToUserName(name: string) returns (user: string)
    requires exists i: nat :: LastMark(name, i)
    ensures exists i: nat :: LastMark(name, i) && user == name[..i] + name[i + 2..]
  {
    var buf := new char[|name| + 1](i => if 0 <= i < |name| then name[i] else '\0');
    var at := StrRIndex(name, ".#");
    ghost var i: nat :| LastMark(name, i);
    assert at.Some? && at.value == i;
    var ptr := at.value;
    var q := ptr;
    while q + 2 < |name|
      invariant ptr <= q <= |name| - 2
      invariant forall k | 0 <= k < ptr :: buf[k] == name[k]
      invariant forall k | ptr <= k < q :: buf[k] == name[k + 2]
      invariant forall k | q <= k < |name| :: buf[k] == name[k]
    {
      buf[q] := buf[q + 2];
      q := q + 1;
    }
    buf[q] := '\0';
    user := buf[..q];
    WithoutTwo(name, user, ptr);
  }

  /** Marking a name that has no mark of its own, anywhere below any directory, is undone by
      convert_to_user_name. */
  lemma MarkThenConvert(dir: string, name: string)
    requires forall j: nat :: !OccursAt(name, ".#", j)
    ensures LastMark(dir + ".#" + name, |dir|)
    ensures (dir + ".#" + name)[..|dir|] + (dir + ".#" + name)[|dir| + 2..] == dir + name
  {
    var s := dir + ".#" + name;
    assert s[|dir|..] == ".#" + name;
    forall j | |dir| < j ensures !OccursAt(s, ".#", j) {
      if OccursAt(s, ".#", j) {
        assert s[j] == '.' && s[j + 1] == '#' by {
          assert s[j..][0] == '.' && s[j..][1] == '#';
        }
        assert j >= |dir| + 2;
        assert s[j..] == name[j - |dir| - 2..];
        assert OccursAt(name, ".#", j - |dir| - 2);
      }
    }
  }
}
