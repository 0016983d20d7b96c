# Homebrew aliases and livecheck options, in Dafny

This project models two small parts of Homebrew and proves properties of them.

**The alias store** (`Homebrew::Aliases`) keeps user-defined `brew` aliases. Each alias is a small shell script in the aliases directory (`HOMEBREW_ALIASES`). The store has six operations:

- `init` creates the directory.
- `add` writes a new script.
- `remove` deletes one.
- `each` reads the scripts back and yields, for each alias, its name and the command it runs.
- `show` prints `brew alias NAME='CMD'` for each alias and creates a missing symlink.
- `edit` rewrites a script.

The model has two modules for it:

- `AliasScript` (`alias_script.dfy`) reads a script as `each` does. It splits the text into lines as `File.readlines` does and drops the two header lines. It skips comments and lines that match `/^\s*$/`, then normalises the first line left. Normalising chomps the line, cuts a trailing ` $*`, and either removes a leading `brew ` or marks the command as a shell command with `!`.
- `Aliases` (`aliases.dfy`) models the directory as a map from base name to entry. An entry records whether the name is a directory, the script text, and whether the symlink named after it exists. The store is the class `Aliases.Store`, whose methods update that map. `each` and `show` are loops over the directory, proved against the specification functions `Selected`, `Listing` and `AllResolve`.

**Livecheck options** (`Homebrew::Livecheck::Options`) is an immutable value with three fields:

- `homebrew_curl`, a Boolean;
- `post_form`, form data for a POST request;
- `post_json`, JSON data for a POST request.

Each field may be nil. `LivecheckOptions` (`livecheck_options.dfy`) models it as a datatype with its hash views (`url_options`, `to_h`, `to_hash`), `merge`, `==`, `empty?` and `present?`. `Overlay` is a field-by-field reference definition of merging, and `MergeOptions` proves that `merge` agrees with it.

`Wrappers` (`wrappers.dfy`) holds the `Option` and `Result` types.

Points where the model follows the code to the letter:

- The glob `Dir["…/*"]` does not list names that begin with a dot, so such entries are never enumerated (`Aliases.Hidden`).
- In Ruby regular expressions `^` and `$` are line anchors, not text anchors. `^` never matches after a newline that ends the text. The model defines the two anchors that way (`LineStart`, `BlankFrom`, `SplatAt`).
- `chomp` removes a trailing `"\r\n"` as well as a lone `"\n"` or `"\r"` (`ChompRemovesOneEnding`). So a script saved with CRLF line endings reads the same as one with plain newlines (`NormalizeRules`).
- `Options.new(**hash)` leaves a field that the hash does not mention at nil.

## Model

| member | source | states |
|---|---|---|
| AliasScript.ReadLinesConcat | Library/Homebrew/aliases/aliases.rb:38 | the lines File.readlines returns join back into the script text |
| AliasScript.ReadLinesShape | Library/Homebrew/aliases/aliases.rb:38 | no line is empty; a newline only ever ends a line; every line but the last ends with one |
| AliasScript.ReadLinesAppend | Library/Homebrew/aliases/aliases.rb:38 | a text whose first part ends in a newline reads as the lines of the first part followed by the lines of the rest |
| AliasScript.ReadLinesOneLine | Library/Homebrew/aliases/aliases.rb:38 | a non-empty text of one line reads as that single line |
| AliasScript.Chomp | Library/Homebrew/aliases/aliases.rb:44 | the result is a prefix of the line, at most two characters shorter; it differs from the line exactly when the line ends in "\n" or "\r"; a chomped line of File.readlines holds no newline |
| AliasScript.ChompRemovesOneEnding | Library/Homebrew/aliases/aliases.rb:44 | chomp removes exactly one trailing "\r\n" when the line ends in one, and otherwise exactly its one trailing "\n" or "\r" |
| AliasScript.ChompCrLf | Library/Homebrew/aliases/aliases.rb:44 | a line followed by "\r\n" chomps back to that line |
| AliasScript.ChompCr | Library/Homebrew/aliases/aliases.rb:44 | a line followed by a lone "\r" chomps back to that line |
| AliasScript.ChompLf | Library/Homebrew/aliases/aliases.rb:44 | a line that does not end in "\r", followed by "\n", chomps back to that line |
| AliasScript.SplatMatch | Library/Homebrew/aliases/aliases.rb:45 | finds the leftmost place where ` $*` is followed by the end of the text or a newline; None exactly when there is no such place |
| AliasScript.StripSplatOnLine | Library/Homebrew/aliases/aliases.rb:45 | on a chomped line, a trailing ` $*` is cut off and nothing else in the line changes; a line not ending in ` $*` is left alone |
| AliasScript.Dispatch | Library/Homebrew/aliases/aliases.rb:47-51 | a command starting with `brew ` loses exactly that prefix; any other command becomes `"!" + cmd`, so a `brew ` prefix is never introduced |
| AliasScript.NormalizeRules | Library/Homebrew/aliases/aliases.rb:44-51 | for a line without a break: a "\n" or "\r\n" line ending is chomped, with the same result either way; a trailing ` $*` is cut; then a leading `brew ` is removed or `!` is prefixed |
| AliasScript.NormalizeUndoesLineFor | Library/Homebrew/aliases/aliases.rb:44-51 | every display form without a newline, except `!brew …`, written as a script line with the splat, normalises back to itself |
| AliasScript.LineForShape | Library/Homebrew/aliases/aliases.rb:44-45 | the script line for a display form holds no line break and ends with the splat after the command |
| AliasScript.BlankLineOnSingleLine | Library/Homebrew/aliases/aliases.rb:42 | on a line of File.readlines, `/^\s*$/` matches exactly when every character is Ruby whitespace |
| AliasScript.FirstContent | Library/Homebrew/aliases/aliases.rb:42-43 | None exactly when every line is a comment or blank; otherwise the first line that is neither comment nor blank |
| AliasScript.HeaderIgnored | Library/Homebrew/aliases/aliases.rb:38 | scripts that differ only in their first two lines resolve to the same command |
| AliasScript.ScriptResolvesFromBody | Library/Homebrew/aliases/aliases.rb:38-51 | a script of shebang line, metadata line and body resolves as the body's first content line normalised, or fails when the body has none |
| AliasScript.CommandLineRead | Library/Homebrew/aliases/aliases.rb:42-44 | a non-comment line with a non-space character survives the filter and chomps back to itself |
| AliasScript.ScriptWithCommandLine | Library/Homebrew/aliases/aliases.rb:38-51 | a script whose body starts with a command line resolves to that line with its splat cut and its `brew ` prefix removed, or `!` added; the lines after it are ignored |
| Aliases.ListingCoversSelection | Library/Homebrew/aliases/aliases.rb:40-43 | the names listed are among those selected; every selected name is listed exactly when no selected script lacks a content line |
| Aliases.ShowLinesAt | Library/Homebrew/aliases/aliases.rb:60 | the i-th printed line is `brew alias NAME='CMD'` for the i-th enumerated alias |
| Aliases.Store.Init | Library/Homebrew/aliases/aliases.rb:16-18 | afterwards the directory exists whether or not it did before, and no entry changes, so a second `init` changes nothing |
| Aliases.Store.Add | Library/Homebrew/aliases/aliases.rb:21-25 | an existing name fails with AlreadyExists and leaves the directory as it was; otherwise exactly that name's script is written, not yet linked |
| Aliases.Store.Remove | Library/Homebrew/aliases/aliases.rb:28-30 | an alias's entry, script and symlink, is deleted and nothing else changes; a missing alias is reported and changes nothing |
| Aliases.Store.Each | Library/Homebrew/aliases/aliases.rb:33-55 | succeeds exactly when every selected script resolves, and then yields each selected name once with its command, in no promised order; otherwise fails with a selected name whose script has no content line |
| Aliases.Store.Show | Library/Homebrew/aliases/aliases.rb:58-64 | prints one line per alias `each` yields, each alias once with its command; links exactly the aliases shown that had no symlink; never touches a script; reports the malformed selected script when `each` fails |
| Aliases.Store.Link | Library/Homebrew/aliases/aliases.rb:62 | the symlink for the name exists afterwards and nothing else changes |
| Aliases.Store.Edit | Library/Homebrew/aliases/aliases.rb:67-70 | with no command nothing changes; with a command the script is overwritten without an existence check and the symlink is left as it was |
| Aliases.SelectionIsSubset | Library/Homebrew/aliases/aliases.rb:40 | with a non-empty `only`, the selection is the unrestricted selection cut down to the names in `only` |
| Aliases.OutsideOnlyIgnored | Library/Homebrew/aliases/aliases.rb:40-43 | an entry outside a non-empty `only`, however malformed, changes neither the selection nor the listing nor whether `each` fails |
| Aliases.SelectedAlone | Library/Homebrew/aliases/aliases.rb:35-40 | enumerating just one name the glob yields selects that name alone |
| Aliases.ResolvesAlone | Library/Homebrew/aliases/aliases.rb:40-43 | enumerating just one name fails exactly when its script has no content line |
| Aliases.ListedAlone | Library/Homebrew/aliases/aliases.rb:40-53 | enumerating just one name whose script resolves lists that name alone with its command |
| Aliases.AddedAliasListed | Library/Homebrew/aliases/aliases.rb:21-25 | after `add` of a name the glob sees, `each([name])` selects just that name, fails exactly when the script has no content line, and otherwise lists the name with its command |
| Aliases.AddedCommandListed | Library/Homebrew/aliases/aliases.rb:33-55 | a script made of two header lines then a command line reads back, on its own, as that command line normalised |
| LivecheckOptions.NewStoresFields | Library/Homebrew/livecheck/options.rb:31-35 | construction stores the three fields as given; with no arguments all three are nil |
| LivecheckOptions.UrlOptionsIsToH | Library/Homebrew/livecheck/options.rb:39-55 | `url_options` and `to_h` give the same three Symbol-keyed values |
| LivecheckOptions.ToHashMatchesToH | Library/Homebrew/livecheck/options.rb:49-65 | `to_hash` has exactly the keys "homebrew_curl", "post_form" and "post_json", each holding the value `to_h` gives under the Symbol key |
| LivecheckOptions.FromHashToH | Library/Homebrew/livecheck/options.rb:31-35 | `Options.new(**o.to_h)` is `o` again |
| LivecheckOptions.ToHFromHash | Library/Homebrew/livecheck/options.rb:31-55 | a well-typed hash with all three keys is the `to_h` of the object built from it |
| LivecheckOptions.MergeBlank | Library/Homebrew/livecheck/options.rb:75 | `merge` with a blank argument returns an object equal to `self` |
| LivecheckOptions.CompactToH | Library/Homebrew/livecheck/options.rb:78 | `other.to_h.compact` keeps exactly the fields that are not nil, with their values |
| LivecheckOptions.FromHashOverlay | Library/Homebrew/livecheck/options.rb:81-82 | building an object from `to_h` merged with another object's compacted `to_h` gives the field-by-field overlay |
| LivecheckOptions.MergeOptions | Library/Homebrew/livecheck/options.rb:74-83 | merging another Options takes each field from `other` when it is not nil and from `self` otherwise |
| LivecheckOptions.MergeEmptyOptions | Library/Homebrew/livecheck/options.rb:70-72 | merging an all-nil Options changes nothing |
| LivecheckOptions.MergeSelf | Library/Homebrew/livecheck/options.rb:79 | `o.merge(o)` is `o` |
| LivecheckOptions.MergeHash | Library/Homebrew/livecheck/options.rb:78-82 | merging a hash is not compacted: the result's `to_h` is `self.to_h` overwritten by every key of the hash |
| LivecheckOptions.MergeHashNil | Library/Homebrew/livecheck/options.rb:78-82 | a nil in a merged hash clears that field, and the other fields keep `self`'s values |
| LivecheckOptions.EqualsIsFieldwise | Library/Homebrew/livecheck/options.rb:86-91 | `==` holds exactly when the two objects have equal fields |
| LivecheckOptions.EmptyAndPresent | Library/Homebrew/livecheck/options.rb:96-104 | `empty?` holds exactly for the all-nil object, and `present?` is always its negation |
| LivecheckOptions.BlankOptionsIsEmpty | Library/Homebrew/livecheck/options.rb:75 | an Options argument is blank exactly when it is `empty?`, and merging it returns `self` |

## Left out

- `RESERVED` (aliases.rb lines 8-13) depends on the `Commands` registry, which is not part of this model, and `add` never consults it.
- `edit_all`, and the editor that `edit` opens: both start an external process. `Edit` models only the script it writes.
- The `Alias` class (alias.rb) is not part of this model. The store takes the text that `Alias#write` produces as a function, `render`. `link` and `remove` are modelled only by their effect on the directory map: the symlink flag, and deleting the entry.
- Real file-system I/O, the order of the `Dir[...]` glob, `puts` and `odie` are modelled differently:
  - The directory is a map.
  - `each` promises no enumeration order.
  - `show` returns its printed lines.
  - Failures are result values.
- The check-then-write race in `add` is a concurrency issue; `Add` is atomic.
- The block of `each` is not modelled as a callback. `Each` returns the yielded pairs; `show`'s block is written out inside `Show`.
- Aliases.Store.Add: requires the directory to exist (`present`), which the command guarantees by calling `init` first. Writing into a missing directory is not modelled.
- Aliases.Store.Add and Aliases.Store.Edit: require `ValidName(name)`, a single non-empty file-name component other than `.` and `..`. Ruby passes any string to `Alias.new`. A name such as `""` or `"a/b"` would name no entry of the flat directory, or an entry in a subdirectory, and the map does not model that.
- Aliases.Store.Edit: with a command, requires that the name is not a directory and that the directory exists. Writing over a directory, which raises in Ruby, is not modelled.
- Aliases.Store.Remove: does not distinguish the two ways `Alias#remove` finds nothing to delete, a missing name and a directory. Both are reported as NotFound.
- LivecheckOptions.Options.Merge: a hash argument must be well typed and may use only the three field names. `Options.new` raises on an unknown key or a value of the wrong type, and that error path is not modelled.
- Sorbet `sig` annotations, and the livecheck code that passes these options on to network requests.
