/**
 * Finding the source of an imported module (blue/module.go): the import
 * path built from a PATH node, Go's `filepath.Base` on it, and the search
 * along the `path` list of the `system` module.
 *
 * The filesystem is an oracle: `stat` tells whether a path exists and
 * whether it is a directory, `open` gives the contents of a file that can
 * be opened.
 */
module Loader {
  import opened Common
  import opened Values

  /** `filepath.Separator` on Unix. */
  const SEP: char := '/'

  datatype Files = Files(stat: string -> Option<bool>, open: string -> Option<string>)

  // ----- the import path -----

  /** A name of a PATH node: not empty and free of separators. */
  predicate PathName(s: string)
  {
    |s| > 0 && forall i :: 0 <= i < |s| ==> s[i] != SEP
  }

  lemma {:induction false} JoinSnoc(parts: seq<string>, p: string, sep: string)
    ensures Join(parts + [p], sep) == if |parts| == 0 then p else Join(parts, sep) + sep + p
    decreases |parts|
  {
    if |parts| == 0 {
      assert parts + [p] == [p];
    } else if |parts| == 1 {
      assert parts + [p] == [parts[0], p];
      assert (parts + [p])[1..] == [p];
    } else {
      assert (parts + [p])[1..] == parts[1..] + [p];
      JoinSnoc(parts[1..], p, sep);
    }
  }

  /** The same, seen from the last part of a non-empty sequence. */
  lemma JoinLast(parts: seq<string>, sep: string)
    requires |parts| > 0
    ensures Join(parts, sep) == if |parts| == 1 then parts[0] else Join(parts[..|parts| - 1], sep) + sep + parts[|parts| - 1]
  {
    JoinSnoc(parts[..|parts| - 1], parts[|parts| - 1], sep);
    assert parts[..|parts| - 1] + [parts[|parts| - 1]] == parts;
  }

  /**
   * `blImportModule`'s buffer: each name of the PATH node is written, and
   * the separator after every name but the last.
   */
  method JoinPath(names: seq<string>) returns (path: string)
    ensures path == Join(names, [SEP])
  {
    path := "";
    var i := 0;
    while i < |names|
      invariant 0 <= i <= |names|
      invariant path == Join(names[..i], [SEP]) + (if 0 < i < |names| then [SEP] else [])
    {
      JoinSnoc(names[..i], names[i], [SEP]);
      assert names[..i + 1] == names[..i] + [names[i]];
      path := path + names[i];
      if i != |names| - 1 {
        path := path + [SEP];
      }
      i := i + 1;
    }
    assert names[..i] == names;
  }

  /** The path with its trailing separators removed. */
  function TrimSeparators(p: string): (r: string)
    ensures |r| <= |p| && r == p[..|r|]
    ensures |r| > 0 ==> r[|r| - 1] != SEP
  {
    if |p| > 0 && p[|p| - 1] == SEP then TrimSeparators(p[..|p| - 1]) else p
  }

  /** What follows the last separator. */
  function LastElement(p: string): (r: string)
    ensures |r| <= |p|
  {
    if |p| == 0 || p[|p| - 1] == SEP then "" else LastElement(p[..|p| - 1]) + [p[|p| - 1]]
  }

  /**
   * Go's `filepath.Base`: "." for the empty path, the separator for a path
   * of separators only, and otherwise the last element once trailing
   * separators are dropped.
   */
  function Base(path: string): (b: string)
    ensures |b| > 0
  {
    if path == "" then "."
    else
      var trimmed := TrimSeparators(path);
      if trimmed == "" then [SEP]
      else
        LastElementNotEmpty(trimmed);
        LastElement(trimmed)
  }

  lemma LastElementNotEmpty(p: string)
    requires |p| > 0 && p[|p| - 1] != SEP
    ensures |LastElement(p)| > 0
  {
  }

  lemma {:induction false} LastElementAfterSeparator(x: string, s: string)
    requires forall i :: 0 <= i < |s| ==> s[i] != SEP
    ensures LastElement(x + [SEP] + s) == s
    decreases |s|
  {
    var p := x + [SEP] + s;
    if |s| == 0 {
      assert p[|p| - 1] == SEP;
    } else {
      assert p[..|p| - 1] == x + [SEP] + s[..|s| - 1];
      LastElementAfterSeparator(x, s[..|s| - 1]);
      assert s == s[..|s| - 1] + [s[|s| - 1]];
    }
  }

  lemma {:induction false} LastElementPlain(s: string)
    requires forall i :: 0 <= i < |s| ==> s[i] != SEP
    ensures LastElement(s) == s
    decreases |s|
  {
    if |s| > 0 {
      LastElementPlain(s[..|s| - 1]);
      assert s == s[..|s| - 1] + [s[|s| - 1]];
    }
  }

  lemma BaseWithoutTrailingSeparator(p: string)
    requires |p| > 0 && p[|p| - 1] != SEP
    ensures Base(p) == LastElement(p)
  {
    assert TrimSeparators(p) == p;
  }

  lemma BaseAfterSeparator(x: string, s: string)
    requires PathName(s)
    ensures Base(x + [SEP] + s) == s
  {
    var p := x + [SEP] + s;
    assert p[|p| - 1] == s[|s| - 1];
    LastElementAfterSeparator(x, s);
    BaseWithoutTrailingSeparator(p);
  }

  lemma BaseOfName(s: string)
    requires PathName(s)
    ensures Base(s) == s
  {
    LastElementPlain(s);
    BaseWithoutTrailingSeparator(s);
  }

  /** The module name of an import is its last component. */
  lemma BaseOfImportPath(names: seq<string>)
    requires |names| > 0 && forall i :: 0 <= i < |names| ==> PathName(names[i])
    ensures Base(Join(names, [SEP])) == names[|names| - 1]
  {
    var last := names[|names| - 1];
    assert PathName(last);
    JoinLast(names, [SEP]);
    if |names| == 1 {
      BaseOfName(last);
    } else {
      BaseAfterSeparator(Join(names[..|names| - 1], [SEP]), last);
    }
  }

  /** An import path of several components is longer than its last component, so the two differ. */
  lemma {:induction false} PathLongerThanName(names: seq<string>)
    requires |names| > 1 && forall i :: 0 <= i < |names| ==> PathName(names[i])
    ensures |Join(names, [SEP])| > |names[|names| - 1]|
  {
    JoinLast(names, [SEP]);
  }

  // ----- the search -----

  /** What `blLocateModule` finds: a module already in the map, or a file to load. */
  datatype Located = Cached(addr: nat) | Found(source: string, fullpath: string)

  function FailMessage(path: string): string
  {
    "failed to load module '" + ReplaceChar(path, SEP, '.') + "'"
  }

  const NO_SYSTEM: string := "system module not added at initialization"

  /**
   * The loop of `blLocateModule` from entry `i`: entries that are not
   * strings are skipped; a directory `dir/path` must hold `name.bl`, and a
   * directory without it ends the search; otherwise `dir/path.bl` is tried.
   */
  function SearchSpec(objs: seq<Obj>, entries: seq<Ref>, i: nat, name: string, path: string, files: Files): (r: Outcome<Located>)
    ensures r.Done? ==> r.value.Found?
    ensures !r.Done? ==> r == Error(FailMessage(path))
    decreases |entries| - i
  {
    if i >= |entries| then Error(FailMessage(path))
    else
      var o := Deref(objs, entries[i]);
      if o.Some? && o.value.StringObj? then
        var full := o.value.sval + [SEP] + path;
        if files.stat(full) == Some(true) then
          var f := files.open(full + [SEP] + name + ".bl");
          if f.Some? then Done(Found(f.value, full)) else Error(FailMessage(path))
        else
          var f := files.open(full + ".bl");
          if f.Some? then Done(Found(f.value, full)) else SearchSpec(objs, entries, i + 1, name, path, files)
      else SearchSpec(objs, entries, i + 1, name, path, files)
  }

  /**
   * `blLocateModule`: the module map is consulted by PATH; then the
   * `system` module must exist and its `path` member must be a list.
   */
  function LocateSpec(objs: seq<Obj>, modules: map<string, nat>, name: string, path: string, files: Files): (r: Outcome<Located>)
    ensures !r.Returned?
  {
    if path in modules then Done(Cached(modules[path]))
    else if "system" !in modules then Error(NO_SYSTEM)
    else
      var sys := Deref(objs, Ptr(modules["system"]));
      if !(sys.Some? && sys.value.ModuleObj?) then Fault(NIL_DEREF)
      else
        var l := Deref(objs, if "path" in sys.value.locals then sys.value.locals["path"] else Null);
        if !(l.Some? && l.value.ListObj?) then Fault(BAD_ASSERTION)
        else SearchSpec(objs, l.value.list, 0, name, path, files)
  }

  /** Whether entry `i` lets the search go on to the next one. */
  predicate Passes(objs: seq<Obj>, entry: Ref, name: string, path: string, files: Files)
  {
    var o := Deref(objs, entry);
    !(o.Some? && o.value.StringObj?)
    || (files.stat(o.value.sval + [SEP] + path) != Some(true) && files.open(o.value.sval + [SEP] + path + ".bl").None?)
  }

  /** Entries that hold nothing for this import are passed over one by one. */
  lemma {:induction false} SearchSkips(objs: seq<Obj>, entries: seq<Ref>, i: nat, k: nat, name: string, path: string, files: Files)
    requires i <= k <= |entries|
    requires forall j :: i <= j < k ==> Passes(objs, entries[j], name, path, files)
    ensures SearchSpec(objs, entries, i, name, path, files) == SearchSpec(objs, entries, k, name, path, files)
    decreases k - i
  {
    if i < k {
      SearchSkips(objs, entries, i + 1, k, name, path, files);
    }
  }

  /**
   * A directory `dir/path` without `name.bl` in it ends the search with the
   * failure, even when a later entry holds the module.
   */
  lemma DirectoryStopsSearch(objs: seq<Obj>, entries: seq<Ref>, i: nat, name: string, path: string, files: Files)
    requires i < |entries| && Deref(objs, entries[i]).Some? && Deref(objs, entries[i]).value.StringObj?
    requires var full := Deref(objs, entries[i]).value.sval + [SEP] + path;
      files.stat(full) == Some(true) && files.open(full + [SEP] + name + ".bl").None?
    ensures SearchSpec(objs, entries, i, name, path, files) == Error(FailMessage(path))
  {
  }

  /** `blLocateModule` as the source runs it, with its loop over the path entries. */
  method LocateModule(objs: seq<Obj>, modules: map<string, nat>, name: string, path: string, files: Files)
    returns (r: Outcome<Located>)
    ensures r == LocateSpec(objs, modules, name, path, files)
  {
    if path in modules {
      return Done(Cached(modules[path]));
    }
    if "system" !in modules {
      return Error(NO_SYSTEM);
    }
    var sys := Deref(objs, Ptr(modules["system"]));
    if !(sys.Some? && sys.value.ModuleObj?) {
      return Fault(NIL_DEREF);
    }
    var l := Deref(objs, if "path" in sys.value.locals then sys.value.locals["path"] else Null);
    if !(l.Some? && l.value.ListObj?) {
      return Fault(BAD_ASSERTION);
    }
    var entries := l.value.list;
    var i := 0;
    while i < |entries|
      invariant 0 <= i <= |entries|
      invariant SearchSpec(objs, entries, 0, name, path, files) == SearchSpec(objs, entries, i, name, path, files)
    {
      var o := Deref(objs, entries[i]);
      if o.Some? && o.value.StringObj? {
        var full := o.value.sval + [SEP] + path;
        var f: Option<string>;
        if files.stat(full) == Some(true) {
          f := files.open(full + [SEP] + name + ".bl");
          if f.None? {
            break;
          }
        } else {
          f := files.open(full + ".bl");
        }
        if f.Some? {
          return Done(Found(f.value, full));
        }
      }
      i := i + 1;
    }
    return Error(FailMessage(path));
  }

  /** A path that is not a key of the map is never answered from it. */
  lemma LocateMissesUncached(objs: seq<Obj>, modules: map<string, nat>, name: string, path: string, files: Files)
    requires path !in modules
    ensures var r := LocateSpec(objs, modules, name, path, files); !(r.Done? && r.value.Cached?)
  {
  }

  /**
   * The map is searched by path but `blAddModule` files a module under its
   * name: a module imported by a one-name path is found again, while one
   * imported by a longer path is never found in the map and is searched for
   * (and loaded) anew.
   */
  lemma CacheByPathAddByName(objs: seq<Obj>, modules: map<string, nat>, names: seq<string>, addr: nat, files: Files)
    requires |names| > 0 && forall i :: 0 <= i < |names| ==> PathName(names[i])
    requires Join(names, [SEP]) !in modules
    ensures var path := Join(names, [SEP]); var name := Base(path);
      |names| == 1 ==> LocateSpec(objs, modules[name := addr], name, path, files) == Done(Cached(addr))
    ensures var path := Join(names, [SEP]); var name := Base(path);
      |names| > 1 ==> var r := LocateSpec(objs, modules[name := addr], name, path, files); !(r.Done? && r.value.Cached?)
  {
    var path := Join(names, [SEP]);
    BaseOfImportPath(names);
    if |names| > 1 {
      PathLongerThanName(names);
      assert path != Base(path);
      assert path !in modules[Base(path) := addr];
      LocateMissesUncached(objs, modules[Base(path) := addr], Base(path), path, files);
    } else {
      assert path == names[0];
      assert path in modules[Base(path) := addr];
    }
  }
}
