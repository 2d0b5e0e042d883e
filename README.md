# nging-builder, modelled in Dafny

nging-builder is a command-line tool that cross-compiles the Nging web
application (or a program built the same way) for a list of `os/arch`
targets. Each build calls `go build` or the `xgo` cross-compiler with a
computed set of tags, linker flags and environment variables. The tool also
writes the `//go:generate go-bindata …` comments that embed asset
directories into the binary.

This project models the decisions the tool makes before it starts any
process:

- **Targets (`targets.dfy`).** The target table maps short names such as
  `linux_amd64` to `linux/amd64`. `getTarget` resolves a name or a full
  target. The `addTarget` closure sorts resolved targets into an ordinary
  list and an ARM list. The command-line switch picks one of these outcomes:
  an explicit comma-separated list, every target, `genConfig`, `makeGen`,
  `version`, an invalid parameter, or an unsupported target.
- **Configuration and per-target parameters (`params.dfy`).** This covers the
  `Config` record and `apply`, which merges the configuration file into the
  current parameters and adds file targets to the table. It also covers the
  work-directory computation and `isSingleFile`. Finally it covers the
  per-target loop that derives one `buildParam`: the `os/arch` split, the
  `osusergo`/`netgo`/`sqlitego` tags, the fallback from `xgo` to `go`, the
  static linker flags and the `.exe` extension.
- **Command pieces (`command.dfy`).** The `-ldflags` strings, the `GOOS`,
  `GOARCH` and `GOARM` environment, the xgo image name, the `GOPROXY`
  default, the build tool chosen by the compiler switch, and the version
  parsed from a startup package path.
- **go:generate comments (`generate.dfy`, `comment.dfy`).**
  `buildGoGenerateCommandData` turns asset directories into go-bindata
  patterns ending in `/...`, in place in its slice. It also gathers the
  distinct `-prefix` roots, in first-seen order. A root comes either from a
  `vendor/<host>/<org>/<repo>/` entry or from a run of leading `../` followed
  by `<host>/<org>/<repo>/`. `genComment` assembles the comment.
  `makeGenerateCommandComment` visits the platform keys, names each
  platform's file and rewrites it with a new header over the old file's
  imports; the project directory is a map from file name to content.
- **Supporting modules.** `go_strings.dfy` models the Go `strings` functions
  the tool uses. `seqs.dfy` holds generic filter, dedup and collect
  functions. `wrappers.dfy` holds `Option`. `examples_gen.dfy` restates the
  repository's `Test1` as a lemma.

Three parts take the form of the Go code, which mutates state:

- `buildGoGenerateCommandData` is a method over an `array<string>`. It
  overwrites its argument's entries and keeps the seen-set and prefix list as
  loop variables.
- The loop of `makeGenerateCommandComment` is a method with a `for` loop that
  rewrites the file map key by key.
- `addTarget` and `apply` are methods of the classes `Targets.TargetList` and
  `Params.Builder`. Their fields are the two target slices, the build
  parameters and the target table.

Each such method is proved equal to a specification function. The properties
are then proved about those functions.

## Model

| member | source | states |
|---|---|---|
| Generate.Normalize | main.go:588-593 | a directory becomes a go-bindata pattern: the result extends the input and ends in `/...`, and a pattern already ending in `/...` is unchanged |
| Generate.NormalizeIdempotent | main.go:588-593 | normalising a pattern twice gives the same result as normalising it once |
| Generate.NormalizeAllPatterns | main.go:587-593 | each entry of the rewritten list is the normalised original and ends in `/...`; the list keeps its length; rewriting it again changes nothing |
| Generate.EntryPrefix | main.go:594-619 | the root one normalised entry contributes, if any; every root ends in `/` (its values are stated by VendorEntryPrefix and DotDotEntryPrefix) |
| Generate.SkipDotDots | main.go:604-611 | the `../`-skipping loop never lengthens the text, and the skipped count grows by at most the characters removed |
| Generate.SkipDotDotsRun | main.go:604-611 | a run of k `../` followed by text holding no `../` is skipped whole: 3 characters per step, stopping at the text |
| Generate.CountDotDotRun | main.go:604-611 | the imperative skip loop ends in the same text and count as the recursive definition |
| Generate.NormalizeEntry | main.go:588-593 | the imperative suffixing of one entry equals Normalize |
| Generate.FindPrefix | main.go:594-619 | the imperative root search for one entry equals the specification EntryPrefix |
| Generate.VendorPrefixIsPrefix | main.go:594-602 | a root found for a `vendor/` entry is a prefix of the entry and ends in `/` |
| Generate.VendorEntryPrefix | main.go:594-602 | for `vendor/` + t, where t splits into four `/`-parts, the root is `vendor/` followed by the first three parts joined by `/` and a final `/` |
| Generate.VendorRepoEntry | main.go:594-602 | `vendor/<host>/<org>/<repo>/<rest>` has root `vendor/<host>/<org>/<repo>/` |
| Generate.DotDotEntryPrefix | main.go:603-619 | for k ≥ 1 leading `../` before a tail without `../` that splits into four parts, the root is the run followed by the tail's first three parts and `/` |
| Generate.DotDotRepoEntry | main.go:603-619 | `../…../<host>/<org>/<repo>/<rest>` has root `../…../<host>/<org>/<repo>/` |
| Generate.Roots | main.go:586-619 | the prefix list the loop gathers, entry by entry under the seen-set; characterised by RootsDedup, RootsElements and RootsOrder |
| Generate.RootsDedup | main.go:586-619 | the prefix list equals the entries' candidate roots with duplicates removed, keeping each root's first occurrence |
| Generate.RootsNoDup | main.go:598-601 | the prefix list never holds a root twice |
| Generate.RootsElements | main.go:594-619 | a root is in the prefix list iff some entry yields it |
| Generate.RootsOrder | main.go:598-601 | roots appear in the order their first entry appears |
| Generate.RootsShared | main.go:598-601 | entries that all give the same root contribute that root exactly once |
| Generate.SharedVendorRoot | main.go:594-602 | several `vendor/` entries of one repository give one shared root |
| Generate.BuildGoGenerateCommandData | main.go:585-625 | the slice is overwritten in place with the normalised patterns, and the returned prefixes are the distinct roots of those patterns in first-seen order |
| GenerateExamples.RelativeEntryExample | main_test.go:12-22 | the test's entry `../../../github.com/admpub/nging/template/...` stays as it is and gives the single root `../../../github.com/admpub/nging/` |
| Comment.BuiltInsNormalized | main.go:576 | the three built-in directories become `public/assets/...`, `template/...` and `config/i18n/...` |
| Comment.BuiltInsRootless | main.go:576 | no built-in pattern contributes a `-prefix` root |
| Comment.RootsAfterRootless | main.go:577-579 | entries without roots placed before others leave the others' prefix list unchanged |
| Comment.GenComment | main.go:573-583 | the go:generate comment for the configured directories; its layout is stated by GenCommentLayout |
| Comment.GenCommentLayout | main.go:573-583 | the comment is the install line, the go-bindata line, the configured directories' roots joined by `\|`, then the built-in and configured patterns in order joined by spaces |
| Comment.GeneratedFileName | main.go:636-643 | every generated file name starts with `main_` and ends in `.go` |
| Comment.FileNameMiddle | main.go:636-643 | the middle of the name is the key, or `non` plus the key without its `!` |
| Comment.PlainFileNamesDistinct | main.go:636-643 | distinct keys without `!` give distinct files |
| Comment.NegatedFileNameDistinct | main.go:636-643 | `!x` and `x` never share a file |
| Comment.NegationShadowsNonKey | main.go:636-643 | `!x` and the plain key `nonx` name the same file |
| Comment.DirsFor | main.go:628-635 | a platform's directories are the `*` list followed by its own: the `*` list is a prefix, the platform's list a suffix, and the lengths add up; a missing key reads as empty |
| Comment.FileHeader | main.go:644-646 | the build constraint, package clause and comment, ending in a blank line |
| Comment.GeneratedFileContent | main.go:644-655 | the new file content always starts with the header |
| Comment.ContentTail | main.go:648-655 | after the header comes the old file's text from its first `import ` on, or nothing when there is no old file or it holds no `import ` |
| Comment.RegenerationIdempotent | main.go:644-655 | regenerating a file from its own output, with the same header, reproduces that output |
| Comment.MakeGenerateCommandComment | main.go:627-662 | the loop over the platform keys, in map order, leaves the file map that WriteFiles defines |
| Comment.WriteFiles | main.go:627-662 | the file map after visiting the keys in order, each key other than `*` rewriting its own file; stated by WriteFilesSpec, WriteFilesElsewhere and WriteFilesOwnFile |
| Comment.WriteFilesSpec | main.go:627-662 | afterwards a file exists iff it existed before or a key other than `*` names it; every rewritten file starts with the header of a key naming it; other files are unchanged |
| Comment.WriteFilesElsewhere | main.go:627-662 | a file that no visited key names is left exactly as it was, present or absent |
| Comment.WriteFilesOwnFile | main.go:636-655 | a key that alone names its file leaves it as its own header followed by the old file's text from its first `import ` |
| Targets.GetTarget | main.go:270-280 | a registered name resolves to its table value; otherwise the result is either empty or the input itself, and then the input is a registered value |
| Targets.GetTargetIdempotent | main.go:270-280 | resolving a resolved target again changes nothing, when no name is also a value and the empty string is not a name |
| Targets.GetTargetFound | main.go:270-280 | a registered name or value always resolves to a registered value, and a value that is not also a name resolves to itself |
| Targets.IsMinified | main.go:282-284 | the minify argument is `m` or `min`; how it selects minification is stated by MinifySelection |
| Targets.IsArm | main.go:80 | the `/arm` regular expression, a literal, as containment of `/arm`; its effect on grouping is stated by GroupedSpec |
| Targets.GroupedSpec | main.go:125-129 | the final target list is a permutation of the added targets, and every ARM target follows every other target |
| Targets.PieceTargetSpec | main.go:139-144 | a piece that is only white space adds nothing; any other piece adds exactly the non-empty target its trimmed text resolves to |
| Targets.ResolveElements | main.go:139-145 | a target is selected iff some trimmed, non-blank piece of the list resolves to it; every selected target is a non-empty registered value |
| Targets.ValuesInOrderSpec | main.go:150-152 | adding every table entry without resolving adds one target per key, and exactly the table's values |
| Targets.TargetList.constructor | main.go:116-117 | both target lists start empty |
| Targets.TargetList.Add | main.go:125-129 | an ARM target is appended to the ARM list, and any other target to the ordinary list |
| Targets.TargetList.AddName | main.go:118-130 | a name is resolved first; an unresolvable name adds nothing, and a resolved one is added as by Add |
| Targets.TargetList.AddList | main.go:139-145 | the two lists grow by the ordinary and ARM targets resolved from the comma-separated list, in order |
| Targets.TargetList.AddAll | main.go:150-152 | the two lists grow by the ordinary and ARM values of the table, in the given key order |
| Targets.ListTargets | main.go:139-145 | the targets added from an explicit list, ARM targets last |
| Targets.EveryTarget | main.go:150-152 | the targets added from the whole table, ARM targets last |
| Targets.Selection | main.go:133-220 | the outcome of the argument switch; stated by ExplicitSpec, AllTargetsSpec and MinifySelection |
| Targets.SelectTargets | main.go:133-220 | the imperative argument switch reaches the outcome that Selection defines |
| Targets.Explicit | main.go:136-145 | an explicit target list is either built, with the given minify flag, or unsupported |
| Targets.ExplicitSpec | main.go:136-145 | an explicit list is unsupported iff it is non-empty and nothing in it resolves; otherwise the build list is a permutation of the resolved targets, with ARM targets last, registered and non-empty, and keeps the minify flag |
| Targets.AllTargetsSpec | main.go:146-152 | with no argument or a lone minify argument, one target is built per table name, since a map range visits each key once (a value under two names twice), the targets are exactly the table's values, ARM targets last |
| Targets.MinifySelection | main.go:135-183 | no argument builds unminified; a lone argument minifies iff it is `m` or `min`; with two arguments the second decides; minification always comes from such an argument |
| Params.Prefer | main.go:685-699 | a non-empty value from the file replaces the current one; an empty one keeps it |
| Params.Merged | main.go:684-717 | the configuration after apply; stated by MergedPrefersFile, MergedCopiesFile, MergedEmptyFile and MergedIdempotent |
| Params.MergedIdempotent | main.go:684-717 | applying the same file twice gives the same result as applying it once |
| Params.MergedEmptyFile | main.go:684-717 | an empty file keeps the guarded fields and clears the overwritten ones: package paths, image, proxy, tags, copy and make lists, compiler and cgo |
| Params.MergedPrefersFile | main.go:684-705 | the Go version, executor, version, label, project and platform directories take the file's value when it sets one, and otherwise keep the current value |
| Params.MergedCopiesFile | main.go:684-717 | for every file, the package paths, image, proxy, build tags, copy and make lists, compiler and cgo setting are the file's, and the configuration's target map is the current one |
| Params.Builder.constructor | main.go:61-72 | the builder starts with zero build parameters and the given target table |
| Params.Builder.Apply | main.go:684-717 | the configuration becomes the merge of old and file; the table gains the file's targets, which override same-named entries; no name is lost |
| Params.Builder.AddTargets | main.go:706-710 | the table gains every file target, and the parameters are untouched |
| Params.WorkDirOf | main.go:115 | the work directory is never longer than the project path |
| Params.WorkDirOfRoot | main.go:115 | the work directory of `<root><project>`, with or without a trailing `/`, is `<root>` |
| Params.IsSingleFile | main.go:286-301 | isSingleFile as written; stated by SingleFileSpec |
| Params.SingleFileSpec | main.go:286-301 | single-file mode holds iff there are no files to copy, no directories to make and no platform key at all; it implies IntendedSingleFile |
| Params.IntendedSingleFile | main.go:286-301 | the condition the loop over the lists is written to test |
| Params.IntendedSingleFileSpec | main.go:286-301 | the intended mode holds iff there are no files to copy, no directories to make and every platform list is empty; then every platform's directory list is empty |
| Params.EmptyPlatformListNotSingle | main.go:291-300 | a config whose only platform key lists nothing is not in single-file mode as written, but is under the intended condition |
| Params.Minified | main.go:214-216 | requested minification sets the flags `-s -w`; nothing else changes |
| Params.DeriveParam | main.go:223-259 | the imperative per-target derivation equals Derive |
| Params.DeriveSplits | main.go:224-243 | a target without `/` is skipped; otherwise goos, `/` and goarch give back the target, and goos holds no `/` |
| Params.Derive | main.go:223-259 | the per-target copy of the parameters; stated by DeriveSplits and DeriveSpec |
| Params.DeriveSpec | main.go:228-259 | the tags are exactly `osusergo`, then `sqlitego` iff xgo falls back and the build tags hold `sqlite`, then `netgo` iff the OS is not windows; the extension is `.exe` on windows and the builder's own elsewhere; static linker flags are used except on darwin; the compiler becomes `go` when it falls back and is otherwise the configured one; the release directory is the distribution directory in single-file mode and `<executor>_<os>_<arch>` under it otherwise; every other config field, the minify flags, build time, commit, project path and work directory are the builder's |
| Params.OnlyXgoFallsBack | main.go:246-251 | a compiler other than xgo is never changed and never adds `sqlitego` |
| Params.PlanBuilds | main.go:223-267 | the imperative loop over the targets yields the plans that Plans defines |
| Params.PlansSpec | main.go:223-229 | every plan is for a listed target containing `/`, and every such target gets a plan |
| Command.GenLdFlagsString | main.go:319-334 | the build `-ldflags` text; stated by LdFlagsLayout |
| Command.GenLdFlagsStringForStartup | main.go:336-348 | the startup `-ldflags` text; stated by StartupLdFlagsLayout |
| Command.LdFlagsLayout | main.go:319-334 | the build `-ldflags` text is `-X` assignments of the six build variables in order, then `PACKAGE` when a package path is set, followed by the minify and linker flags |
| Command.StartupLdFlagsLayout | main.go:336-348 | the startup `-ldflags` text is the startup assignments followed by the same flags |
| Command.MinifyLdFlags | main.go:214-216 | with minification the flags after the assignments start with `-s -w`, ahead of the linker flags; without it the text is unchanged |
| Command.GenEnvVars | main.go:350-362 | the environment always starts with `GOOS=<os>` and has two or three entries |
| Command.GenEnvVarsSpec | main.go:350-362 | an `arm-N` architecture gives `GOARCH=arm` and `GOARM=N`; any other gives `GOARCH=<arch>` |
| Command.GoBuildEnv | main.go:382-388 | the variables a `go` build adds: the target's, then one CGO_ENABLED entry |
| Command.GoBuildEnvSpec | main.go:382-388 | the target's variables come first unchanged; exactly the last entry sets CGO_ENABLED, to 1 iff the config enables cgo |
| Command.XgoImage | main.go:394-406 | the image xgo runs in, never empty; stated by XgoImageSpec |
| Command.XgoImageSpec | main.go:394-406 | with no image the default `admpub/xgo:<version>` is used; an image whose last segment has no tag gets `:<version>`; a tagged image is kept |
| Command.XgoImageIdempotent | main.go:394-406 | the chosen image, the default one included, is tagged, and choosing again from it changes nothing |
| Command.GoProxyOrDefault | main.go:407-409 | the proxy is never empty, and a configured one is kept |
| Command.BuildTool | main.go:372-393 | the compiler switch runs `go` or `xgo`; stated by EmptyCompilerBuildsWithXgo |
| Command.EmptyCompilerBuildsWithXgo | main.go:371-393 | an unset compiler builds with xgo and never falls back to go |
| Command.StartupOf | main.go:437-446 | the startup version is never empty |
| Command.StartupOfSpec | main.go:437-446 | a path without `@`, or with nothing but an optional `v` after it, gets version `0.0.1`; `path@vX` and `path@X` give path and version X |
| Command.StartupOfNoAt | main.go:437-446 | a package without `@` is its own path at version `0.0.1` |
| Command.StartupOfAtV | main.go:437-446 | `path@vX` gives version X, and `path@v` gives `0.0.1` |
| Command.StartupOfAt | main.go:437-446 | the text after the first `@`, less one leading `v`, is the version, and `0.0.1` when that leaves nothing |
| Seqs.AppendNew | main.go:598-601 | a root is appended only when it was not seen before, and the seen-set stays equal to the list's elements |

## Left out

- Running processes is not modelled: `go build`, `xgo`, `go generate`, `git`, archiving and copying files. Each build's inputs are modelled, not its effects.
- File-system access is modelled only as far as `makeGenerateCommandComment` needs it. The project directory is a map from file name to content, a failed read is an absent file, and write failures are not modelled. Creating directories, `os.Chdir` and writing the configuration file are not modelled.
- `makeChecksum` and the SHA-256 checksum files are not modelled. The hash is a foreign computation over file contents.
- Command-line flag parsing, TOML decoding, `time.Now` and the git commit id are not modelled. Their results are fields of `BuildParam` or parameters. `filepath.Abs` and the source-path lookup are not modelled either.
- `filepath.Join` is modelled as `/` concatenation, without path cleaning.
- Go strings are byte sequences, while the model's strings are sequences of characters. Indexes and slices agree only on ASCII text. A root cut at a byte offset (main.go:614) can differ once non-ASCII text comes before the `../` run.
- Go map iteration order is random. The loops over the target table and over `VendorMiscDirs` take the key order as an explicit `order` parameter, and the properties hold for every order.
- The `genConfig`, `makeGen` and `version` arguments are modelled as outcomes of the argument switch. Their output and exit are not modelled.
- The argument lists of `execBuildCommand` and `execGenerateCommand` are modelled only through their parts: the `-ldflags` text, the target variables and CGO_ENABLED of a `go` build, the image, the proxy and the tool. Not modelled: the inherited process environment (`os.Environ`), the `-tags` string, the output paths and the xgo `-targets`, `-dest` and `-out` arguments.
- `main_test.go`'s `Test2` is not modelled. It exercises a deep copy of the build parameters, and the model's values are immutable.
- Generate.BuildGoGenerateCommandData: an entry whose `../` run is not at its start is modelled as written. Its root then begins with the entry's first 3k characters, k being the run's length, and not the text up to the run: `a/../b/c/d/e/` gives `a/.b/c/d/`. No lemma states a root for such entries.
- Generate.SkipDotDots: Go's length guard `len(cleaned) > 3` is modelled as written; the model does not relate it to the number of `../` removed beyond the bound it states.
- The ARM test is the literal regular expression `/arm`, modelled as substring containment; no regular-expression engine is modelled.
- Comment.RegenerationIdempotent assumes a header without `import `. No lemma derives this from the platform key and directories, and a directory named with `import ` would break it.

## Findings

| source | as written | input that shows it | evidently intended | confidence | as-written member | corrected member |
|---|---|---|---|---|---|---|
| main.go:286-301 | once `VendorMiscDirs` has any key the flag is already false, so the loop over the lists can only return false: single-file mode needs an empty map | no files to copy or directories to make, and `VendorMiscDirs` is `{"!linux": []}` (the default config lists `!linux` with no directories): multi-file mode | single-file mode when every platform list is empty, which is what the loop tests | medium, not executed | Params.EmptyPlatformListNotSingle | Params.IntendedSingleFileSpec |

The builder's mode is a parameter (`singleFileMode`) of the per-target derivation, so the properties of `Derive` hold under either definition.
