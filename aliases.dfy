/**
 * The alias store: the flat aliases directory (HOMEBREW_ALIASES) with one
 * script per alias, and the `init`, `add`, `remove`, `each`, `show` and
 * `edit` operations over it.
 *
 * The directory is an explicit map from base name to entry; an entry records
 * whether it is a directory, the text of the file, and whether the symlink
 * named after it exists. What the `Alias` class does to the file system
 * (`write`, `link`, `remove`) is modelled only by its effect on that map, and
 * the text `Alias#write` produces is a function the store is given.
 */
module Aliases {
  import opened Wrappers
  import opened AliasScript

  /** One entry of the aliases directory, with the state of the symlink named after it. */
  datatype Entry = Entry(isDir: bool, content: string, linked: bool)

  /** The conditions that stop an operation (`odie`, `T.must`, a missing alias). */
  datatype Failure = AlreadyExists(name: string) | Malformed(name: string) | NotFound(name: string)

  datatype Outcome = Done | Failed(failure: Failure)

  /** A name the directory can hold: one non-empty file name component. */
  predicate ValidName(n: string) {
    n != [] && (forall i :: 0 <= i < |n| ==> n[i] != '/') && n != "." && n != ".."
  }

  /** The glob `*` that lists the aliases directory does not match names that start with a dot. */
  predicate Hidden(n: string) {
    StartsWith(n, ".")
  }

  /**
   * Whether `each(only)` takes the entry `n` as far as its content: globbed,
   * not a backup file ending in `~`, not a directory, and named in `only`
   * unless `only` is empty.
   */
  predicate Yielded(n: string, e: Entry, only: seq<string>) {
    !Hidden(n) && !EndsWith(n, "~") && !e.isDir && (|only| == 0 || n in only)
  }

  /** The names `each(only)` selects. */
  function Selected(files: map<string, Entry>, only: seq<string>): set<string> {
    set n | n in files && Yielded(n, files[n], only)
  }

  /** Whether every selected script has a content line, so that `each(only)` does not fail. */
  predicate AllResolve(files: map<string, Entry>, only: seq<string>) {
    forall n | n in files && Yielded(n, files[n], only) :: Resolve(files[n].content).Some?
  }

  /** The selected names with the commands their scripts resolve to. */
  function Listing(files: map<string, Entry>, only: seq<string>): map<string, string> {
    map n | n in files && Yielded(n, files[n], only) && Resolve(files[n].content).Some?
      :: Resolve(files[n].content).value
  }

  /** `each` fails on no selected script exactly when every selected name is listed. */
  lemma ListingCoversSelection(files: map<string, Entry>, only: seq<string>)
    ensures Listing(files, only).Keys <= Selected(files, only)
    ensures AllResolve(files, only) <==> Listing(files, only).Keys == Selected(files, only)
  {
    if !AllResolve(files, only) {
      var n :| n in files && Yielded(n, files[n], only) && Resolve(files[n].content).None?;
      assert n in Selected(files, only) && n !in Listing(files, only);
    }
  }

  /** The line `show` prints for an alias. */
  function ShowLine(name: string, cmd: string): string {
    "brew alias " + name + "='" + cmd + "'"
  }

  /** The lines `show` prints for a list of pairs, in their order. */
  function ShowLines(pairs: seq<(string, string)>): (lines: seq<string>)
    ensures |lines| == |pairs|
  {
    if pairs == [] then [] else ShowLines(pairs[..|pairs| - 1]) + [ShowLine(pairs[|pairs| - 1].0, pairs[|pairs| - 1].1)]
  }

  lemma ShowLinesAppend(pairs: seq<(string, string)>, p: (string, string))
    ensures ShowLines(pairs + [p]) == ShowLines(pairs) + [ShowLine(p.0, p.1)]
  {
    assert (pairs + [p])[..|pairs|] == pairs;
  }

  /** Line `i` of ShowLines is the line of pair `i`. */
  lemma {:induction false} ShowLinesAt(pairs: seq<(string, string)>, i: nat)
    requires i < |pairs|
    ensures ShowLines(pairs)[i] == ShowLine(pairs[i].0, pairs[i].1)
    decreases |pairs|
  {
    if i < |pairs| - 1 {
      ShowLinesAt(pairs[..|pairs| - 1], i);
    }
  }

  function NameSet(pairs: seq<(string, string)>): set<string> {
    set i | 0 <= i < |pairs| :: pairs[i].0
  }

  lemma NameSetAppend(pairs: seq<(string, string)>, p: (string, string))
    ensures NameSet(pairs + [p]) == NameSet(pairs) + {p.0}
  {
    var q := pairs + [p];
    assert forall i :: 0 <= i < |pairs| ==> q[i] == pairs[i];
    assert q[|pairs|] == p;
  }

  ghost predicate Distinct(pairs: seq<(string, string)>) {
    forall i, j :: 0 <= i < j < |pairs| ==> pairs[i].0 != pairs[j].0
  }

  /** Every pair names an entry of `m` and carries its command. */
  ghost predicate Within(pairs: seq<(string, string)>, m: map<string, string>) {
    forall i :: 0 <= i < |pairs| ==> pairs[i].0 in m && m[pairs[i].0] == pairs[i].1
  }

  /** The pairs list `m` exactly, each name once, in some order. */
  ghost predicate Enumerates(pairs: seq<(string, string)>, m: map<string, string>) {
    Distinct(pairs) && Within(pairs, m) && NameSet(pairs) == m.Keys
  }

  /**
   * The state of an enumeration: `acc` lists, each name once, exactly the
   * selected names no longer in `todo`, and each of them resolved.
   */
  ghost predicate Progress(acc: seq<(string, string)>, selected: set<string>, listing: map<string, string>, todo: set<string>) {
    && NameSet(acc) == selected - todo
    && Distinct(acc)
    && Within(acc, listing)
    && forall n | n in selected - todo :: n in listing
  }

  /** Passing over a name that is not selected keeps the enumeration's state. */
  lemma ProgressSkip(acc: seq<(string, string)>, selected: set<string>, listing: map<string, string>, todo: set<string>, n: string)
    requires Progress(acc, selected, listing, todo) && n !in selected
    ensures Progress(acc, selected, listing, todo - {n})
  {
    assert selected - (todo - {n}) == selected - todo;
  }

  /** Listing a selected, resolved name that was still to do keeps the enumeration's state. */
  lemma ProgressAdd(acc: seq<(string, string)>, selected: set<string>, listing: map<string, string>, todo: set<string>,
                    n: string, cmd: string)
    requires Progress(acc, selected, listing, todo)
    requires n in todo && n in selected && n in listing && listing[n] == cmd
    ensures Progress(acc + [(n, cmd)], selected, listing, todo - {n})
  {
    NameSetAppend(acc, (n, cmd));
    var acc' := acc + [(n, cmd)];
    assert selected - (todo - {n}) == (selected - todo) + {n};
    forall i, j | 0 <= i < j < |acc'|
      ensures acc'[i].0 != acc'[j].0
    {
      if j == |acc| {
        assert acc'[i] == acc[i];
        assert acc[i].0 in NameSet(acc);
      }
    }
  }

  /** The directory after the symlinks of `names` have been made, where missing. */
  function LinkedAfter(files: map<string, Entry>, names: set<string>): (r: map<string, Entry>)
    ensures r.Keys == files.Keys
  {
    map m | m in files :: files[m].(linked := files[m].linked || m in names)
  }

  /** Making one more symlink. */
  lemma LinkOne(files: map<string, Entry>, names: set<string>, n: string)
    requires n in files
    ensures var before := LinkedAfter(files, names);
            before[n := before[n].(linked := true)] == LinkedAfter(files, names + {n})
  {
    var before := LinkedAfter(files, names);
    assert before[n := before[n].(linked := true)].Keys == LinkedAfter(files, names + {n}).Keys;
  }

  /** Where the symlink already exists, making it again changes nothing. */
  lemma LinkExisting(files: map<string, Entry>, names: set<string>, n: string)
    requires n in files && LinkedAfter(files, names)[n].linked
    ensures LinkedAfter(files, names + {n}) == LinkedAfter(files, names)
  {
    var a, b := LinkedAfter(files, names + {n}), LinkedAfter(files, names);
    assert forall m | m in a :: a[m] == b[m];
  }

  class Store {
    /** The script text `Alias#write` produces for a name and a command. */
    const render: (string, string) -> string
    /** Whether the aliases directory exists. */
    var present: bool
    /** The entries of the aliases directory, by base name. */
    var files: map<string, Entry>

    ghost predicate Valid()
      reads this
    {
      (!present ==> files == map[]) && forall n | n in files :: ValidName(n)
    }

    constructor (render: (string, string) -> string, present: bool, files: map<string, Entry>)
      requires !present ==> files == map[]
      requires forall n | n in files :: ValidName(n)
      ensures Valid()
      ensures this.render == render && this.present == present && this.files == files
    {
      this.render := render;
      this.present := present;
      this.files := files;
    }

    /** `init`: `mkdir_p`, so the directory exists afterwards whether or not it did before. */
    method Init()
      requires Valid()
      modifies this
      ensures Valid() && present && files == old(files)
    {
      present := true;
    }

    /**
     * `add`: fails when anything already exists under the name, and then
     * changes nothing; otherwise writes exactly that name's script, not yet
     * linked.
     */
    method Add(name: string, command: string) returns (outcome: Outcome)
      requires Valid() && present && ValidName(name)
      modifies this
      ensures Valid() && present
      ensures name in old(files) ==> outcome == Failed(AlreadyExists(name)) && files == old(files)
      ensures name !in old(files) ==>
                outcome == Done && files == old(files)[name := Entry(false, render(name, command), false)]
    {
      if name in files {
        return Failed(AlreadyExists(name));
      }
      files := files[name := Entry(false, render(name, command), false)];
      outcome := Done;
    }

    /** `remove`: deletes an alias's script and its symlink; a name with no script is reported. */
    method Remove(name: string) returns (outcome: Outcome)
      requires Valid()
      modifies this
      ensures Valid() && present == old(present)
      ensures name in old(files) && !old(files)[name].isDir ==> outcome == Done && files == old(files) - {name}
      ensures !(name in old(files) && !old(files)[name].isDir) ==>
                outcome == Failed(NotFound(name)) && files == old(files)
    {
      if name in files && !files[name].isDir {
        files := files - {name};
        outcome := Done;
      } else {
        outcome := Failed(NotFound(name));
      }
    }

    /**
     * `each(only)`: every selected script as a (name, command) pair, each name
     * once, in no promised order; a selected script without a content line
     * stops the enumeration.
     */
    method Each(only: seq<string>) returns (r: Result<seq<(string, string)>, Failure>)
      ensures r.Success? <==> AllResolve(files, only)
      ensures r.Success? ==> Enumerates(r.value, Listing(files, only))
      ensures r.Failure? ==> r.error.Malformed? && r.error.name in Selected(files, only)
                             && Resolve(files[r.error.name].content).None?
    {
      ghost var selected := Selected(files, only);
      ghost var listing := Listing(files, only);
      var todo := set n | n in files && !Hidden(n);
      var acc: seq<(string, string)> := [];
      while todo != {}
        invariant todo <= files.Keys
        invariant Progress(acc, selected, listing, todo)
        decreases todo
      {
        var n :| n in todo;
        if EndsWith(n, "~") || files[n].isDir || (|only| != 0 && n !in only) {
          ProgressSkip(acc, selected, listing, todo, n);
          todo := todo - {n};
          continue;
        }
        assert n in selected;
        match Resolve(files[n].content)
        case None =>
          ListingCoversSelection(files, only);
          return Failure(Malformed(n));
        case Some(cmd) =>
          ProgressAdd(acc, selected, listing, todo, n, cmd);
          acc := acc + [(n, cmd)];
          todo := todo - {n};
      }
      ListingCoversSelection(files, only);
      assert listing.Keys == selected;
      r := Success(acc);
    }

    /**
     * `show(names)`: prints one `brew alias NAME='CMD'` line per alias that
     * `each(names)` yields, and links each such alias whose symlink does not
     * exist yet. Scripts are never touched. When a selected script turns out
     * malformed the lines already printed and the links already made remain.
     */
    method Show(names: seq<string>) returns (lines: seq<string>, failure: Option<Failure>, ghost shown: seq<(string, string)>)
      requires Valid()
      modifies this
      ensures Valid() && present == old(present)
      ensures files == LinkedAfter(old(files), NameSet(shown))
      ensures lines == ShowLines(shown)
      ensures Distinct(shown) && Within(shown, Listing(old(files), names))
      ensures failure.None? <==> AllResolve(old(files), names)
      ensures failure.None? ==> NameSet(shown) == Selected(old(files), names)
      ensures failure.Some? ==> failure.value.Malformed? && failure.value.name in Selected(old(files), names)
                                && Resolve(old(files)[failure.value.name].content).None?
    {
      var snapshot := files;
      ghost var selected := Selected(snapshot, names);
      ghost var listing := Listing(snapshot, names);
      var todo := set n | n in files && !Hidden(n);
      lines, failure, shown := [], None, [];
      assert LinkedAfter(snapshot, {}) == snapshot;
      while todo != {}
        invariant todo <= snapshot.Keys
        invariant files == LinkedAfter(snapshot, NameSet(shown))
        invariant present == old(present) && snapshot == old(files)
        invariant Progress(shown, selected, listing, todo)
        invariant lines == ShowLines(shown)
        decreases todo
      {
        var n :| n in todo;
        if EndsWith(n, "~") || snapshot[n].isDir || (|names| != 0 && n !in names) {
          ProgressSkip(shown, selected, listing, todo, n);
          todo := todo - {n};
          continue;
        }
        assert n in selected;
        var resolved := Resolve(snapshot[n].content);
        if resolved.None? {
          ListingCoversSelection(snapshot, names);
          failure := Some(Malformed(n));
          return;
        }
        var cmd := resolved.value;
        ProgressAdd(shown, selected, listing, todo, n, cmd);
        NameSetAppend(shown, (n, cmd));
        ShowLinesAppend(shown, (n, cmd));
        if !files[n].linked {
          LinkOne(snapshot, NameSet(shown), n);
          Link(n);
        } else {
          LinkExisting(snapshot, NameSet(shown), n);
        }
        lines := lines + [ShowLine(n, cmd)];
        shown := shown + [(n, cmd)];
        todo := todo - {n};
      }
      ListingCoversSelection(snapshot, names);
    }

    /** `Alias#link`: the symlink named after `n` now exists; nothing else changes. */
    method Link(n: string)
      requires Valid() && n in files
      modifies this
      ensures Valid() && present == old(present)
      ensures files == old(files)[n := old(files)[n].(linked := true)]
    {
      files := files[n := files[n].(linked := true)];
    }

    /**
     * `edit(name, command)`: with a command, writes the script unconditionally
     * (unlike `add`, whatever was there is replaced) and leaves the symlink as
     * it was; without one, nothing changes. The editor it then opens is not
     * modelled.
     */
    method Edit(name: string, command: Option<string>)
      requires Valid()
      requires command.Some? ==> present && ValidName(name) && (name in files ==> !files[name].isDir)
      modifies this
      ensures Valid() && present == old(present)
      ensures command.None? ==> files == old(files)
      ensures command.Some? ==>
                files == old(files)[name := Entry(false, render(name, command.value),
                                                  name in old(files) && old(files)[name].linked)]
    {
      if command.Some? {
        var linked := name in files && files[name].linked;
        files := files[name := Entry(false, render(name, command.value), linked)];
      }
    }
  }

  // ---------------------------------------------------------------------------
  // Properties of the directory as `each` sees it
  // ---------------------------------------------------------------------------

  /**
   * With a non-empty `only`, the selection is the unrestricted selection cut
   * down to the names in `only`.
   */
  lemma SelectionIsSubset(files: map<string, Entry>, only: seq<string>)
    requires |only| > 0
    ensures Selected(files, only) == Selected(files, []) * (set x | x in only)
  {
  }

  /** Outside a non-empty `only`, replacing the entry `n` leaves every name's selection and entry as it was. */
  lemma OutsideOnlySameEntry(files: map<string, Entry>, only: seq<string>, n: string, e: Entry, m: string)
    requires |only| > 0 && n !in only
    ensures (m in files[n := e] && Yielded(m, files[n := e][m], only)) <==> (m in files && Yielded(m, files[m], only))
    ensures m in files[n := e] && Yielded(m, files[n := e][m], only) ==> files[n := e][m] == files[m]
  {
    if m != n {
      assert m in files[n := e] <==> m in files;
    }
  }

  /**
   * The `only` filter runs before the content is read: an entry outside a
   * non-empty `only`, however malformed, changes neither what is listed nor
   * whether `each` fails.
   */
  lemma {:induction false} OutsideOnlyIgnored(files: map<string, Entry>, only: seq<string>, n: string, e: Entry)
    requires |only| > 0 && n !in only
    ensures Selected(files[n := e], only) == Selected(files, only)
    ensures Listing(files[n := e], only) == Listing(files, only)
    ensures AllResolve(files[n := e], only) <==> AllResolve(files, only)
  {
    var f := files[n := e];
    var sf, sg := Selected(f, only), Selected(files, only);
    assert sf == sg by {
      forall m ensures m in sf <==> m in sg {
        OutsideOnlySameEntry(files, only, n, e, m);
      }
    }
    var lf, lg := Listing(f, only), Listing(files, only);
    assert lf == lg by {
      forall m ensures m in lf <==> m in lg
        ensures m in lf ==> lf[m] == lg[m]
      {
        OutsideOnlySameEntry(files, only, n, e, m);
      }
    }
    ListingCoversSelection(f, only);
    ListingCoversSelection(files, only);
  }

  /** Enumerating just a name the glob yields selects that name alone. */
  lemma SelectedAlone(f: map<string, Entry>, name: string)
    requires name in f && Yielded(name, f[name], [name])
    ensures Selected(f, [name]) == {name}
  {
    forall m | m in Selected(f, [name]) ensures m == name {
      assert m in [name];
    }
  }

  /** Enumerating just that name fails exactly when its script has no content line. */
  lemma ResolvesAlone(f: map<string, Entry>, name: string)
    requires name in f && Yielded(name, f[name], [name])
    ensures AllResolve(f, [name]) <==> Resolve(f[name].content).Some?
  {
    if Resolve(f[name].content).Some? {
      forall m | m in f && Yielded(m, f[m], [name]) ensures Resolve(f[m].content).Some? {
        assert m in [name];
      }
    }
  }

  /** Enumerating just that name, when its script resolves, lists that name alone. */
  lemma ListedNamesAlone(f: map<string, Entry>, name: string)
    requires name in f && Yielded(name, f[name], [name]) && Resolve(f[name].content).Some?
    ensures Listing(f, [name]).Keys == {name}
  {
    forall m | m in Listing(f, [name]) ensures m == name {
      assert m in [name];
    }
  }

  /** Enumerating just that name, when its script resolves, lists just it with its command. */
  lemma ListedAlone(f: map<string, Entry>, name: string)
    requires name in f && Yielded(name, f[name], [name]) && Resolve(f[name].content).Some?
    ensures Listing(f, [name]) == map[name := Resolve(f[name].content).value]
  {
    ListedNamesAlone(f, name);
  }

  /**
   * Adding an alias under a name the glob sees and that is not a backup
   * name, then enumerating just that name, lists exactly that alias with the
   * command its script resolves to, and fails exactly when the script has no
   * content line.
   */
  lemma {:induction false} AddedAliasListed(files: map<string, Entry>, name: string, text: string)
    requires !Hidden(name) && !EndsWith(name, "~")
    ensures Selected(files[name := Entry(false, text, false)], [name]) == {name}
    ensures AllResolve(files[name := Entry(false, text, false)], [name]) <==> Resolve(text).Some?
    ensures Resolve(text).Some? ==>
              Listing(files[name := Entry(false, text, false)], [name]) == map[name := Resolve(text).value]
  {
    var f := files[name := Entry(false, text, false)];
    assert name in f && f[name].content == text;
    assert Yielded(name, f[name], [name]);
    SelectedAlone(f, name);
    ResolvesAlone(f, name);
    if Resolve(text).Some? {
      ListedAlone(f, name);
    }
  }

  /**
   * An alias whose script (shebang, metadata line, command line, anything
   * after) was just added lists, on its own, as the command line normalised.
   */
  lemma AddedCommandListed(files: map<string, Entry>, name: string,
                           shebang: string, meta: string, line: string, rest: string)
    requires !Hidden(name) && !EndsWith(name, "~")
    requires shebang != [] && SingleLine(shebang) && shebang[|shebang| - 1] == '\n'
    requires meta != [] && SingleLine(meta) && meta[|meta| - 1] == '\n'
    requires forall i :: 0 <= i < |line| ==> line[i] != '\n'
    requires !EndsWith(line, "\r")
    requires !StartsWith(line, "#") && exists i :: 0 <= i < |line| && !IsSpace(line[i])
    ensures var f := files[name := Entry(false, shebang + meta + (line + "\n" + rest), false)];
            AllResolve(f, [name]) && Listing(f, [name]) == map[name := Dispatch(StripSplat(line))]
  {
    ScriptWithCommandLine(shebang, meta, line, rest);
    AddedAliasListed(files, name, shebang + meta + (line + "\n" + rest));
  }
}
