# mc-mod-metadata: the manifest dispatcher and the archive scan

This project models the core of mc-mod-metadata in Dafny. mc-mod-metadata is a Go
tool that finds the identifier of a Minecraft mod or plugin inside its jar. It
walks the jar's entries. It looks each entry's path up in a closed table of
eight manifest paths. For a match it reads the entry, decodes it with that
dialect's decoder, and reads the dialect's identifier field out of the decoded
record. It collects the identifiers in archive order.

What is modelled:

- `Manifest` (manifest.dfy) holds the shared types. These are the archive entry, the
  records reduced to the fields the dispatcher reads, and the `Dialect`
  table with `Path` and `Classify`. It also holds which decoder each dialect
  calls, Go's `(string, error)` result as `Outcome`, and the archive result as
  `JarResult`.
- `FileReading` (filereading.dfy) models `readZipPart` and `ReadJarFile` of
  src/filereading.go.
- `Scan` (scan.dfy) is the collect-and-skip loop as a reference function
  `Collect`, written for any per-entry dispatcher. Both copies of the loop
  are proved against it.
- `Cli` (cli.dfy) models the program's duplicate `readZipPart`/`readJarFile`
  in main.go. It is written as the literal chain of cases and proved equal to
  the library's table-driven version. `Cli` also holds the test `main` applies
  to directory entries, and `main`'s loop over the directory, which stops at
  the first archive that ends the process.

The read of an entry (`stringFromFile`) and the eight decoders
(`NewBukkitPlugin`, …, `NewVelocityPlugin`, plus `NewForgeLegacyMod`) are
fields of a `Loader` value. A `Loader` holds arbitrary total functions, so every
property here holds for every possible read and decoder. "The read and the
decoders are not invoked" is stated as independence: the result is the same
under any two `Loader`s.

Modelling choices:

- **Empty `Mods`/`Plugins` lists.** The projections `Mods[0].ModID` and
  `Plugins[0].ID` are unchecked in the source. In Go, indexing an empty slice
  is a runtime panic, not a decode failure that the scan skips. So the model
  gives it its own outcome, `IndexOutOfRangePanic`. Nothing in the code
  recovers from a panic, so the scan stops at that entry:
  `JarResult.Panicked(at)`.
- **What the code does at two further edge cases.**
  - `mcmod.info` is decoded with the TOML decoder `NewForgeMod`
    (src/filereading.go:74, main.go:80). The repository also has the JSON
    decoder `NewForgeLegacyMod`, and its tests use it on `mcmod.info`-style
    text (src/serialization_test.go:151). It is never called by either
    `readZipPart`.
  - The dispatcher never checks the identifier it returns, so an empty
    identifier is returned like any other.
- **Ending the process.** `readJarFile` in main.go calls `log.Fatal` when an
  archive does not open (main.go:147-150), and an index panic inside any
  archive is not recovered. Either one ends the directory loop at that
  archive, and later archives are never opened. The model records this as
  `Halt`. `readJarFile` always returns a nil error (`Scan.Collect` proves
  this), so the loop's `fmt.Println(err)` branch never runs. The model only
  keeps the identifier lists the loop prints.
- **Errors.** The read's and the decoders' errors are passed on unchanged as
  `Propagated(cause)`. The dispatcher's own error is `UnknownFile`, whose
  message is "unknown file". Every error comes with the name `""`.

## Model

| member | source | states |
|---|---|---|
| `Manifest.Classify` | src/filereading.go:26-137 | Exact, case-sensitive lookup. A found dialect's path equals the name. No dialect is found exactly when the name equals none of the eight paths. |
| `Manifest.PathsDistinct` | src/filereading.go:27-120 | The eight path constants are pairwise distinct, so a name selects at most one case. |
| `Manifest.ClassifyPath` | src/filereading.go:27-120 | Each path constant selects its own dialect. |
| `Manifest.ClassifyIsExact` | src/filereading.go:26-137 | Examples: `PLUGIN.YML`, `Plugin.yml`, `config/plugin.yml`, `mods.toml` and `META-INF/mods.toml.bak` select nothing, and `META-INF/mods.toml` selects Forge. |
| `Manifest.PrefixedSelectsNothing` | src/filereading.go:26-137 | Any manifest path put under a non-empty directory prefix, as `dir + "/" + path`, selects nothing. |
| `Manifest.ExtendedSelectsNothing` | src/filereading.go:26-137 | Any manifest path with a non-empty text appended selects nothing. |
| `Manifest.DecoderOf` | src/filereading.go:34-127 | `mcmod.info` and `META-INF/mods.toml` go to `NewForgeMod` and nothing else does. Only `META-INF/neoforge.mods.toml` goes to `NewNeoForgeMod`, and only `META-INF/sponge_plugins.json` to `NewSpongePlugin`. |
| `Manifest.DecoderRouting` | src/filereading.go:67-106 | `mcmod.info` and `META-INF/mods.toml` both go to `NewForgeMod`. No other two paths share a decoder. |
| `FileReading.ReadZipPart` | src/filereading.go:25-138 | An error always comes with name `""`. "unknown file" is returned exactly for unrecognised names. A read failure of a recognised entry is returned unchanged. A panic happens only in a Forge, NeoForge or Sponge case after a successful read. |
| `FileReading.Invoke` | src/filereading.go:34-131 | A decoder's error comes with name `""` and is passed on unchanged. Only the Forge, NeoForge and Sponge projections can panic. |
| `FileReading.UnknownNameNeverDecoded` | src/filereading.go:133-136 | An unrecognised name gives `("", "unknown file")`, whatever the read and the decoders would do. |
| `FileReading.NameDialects` | src/filereading.go:27-52 | `plugin.yml` and `bungee.yml` return the Bukkit and BungeeCord record's `Name` unchanged, or the decoder's error with `""`. |
| `FileReading.FabricId` | src/filereading.go:53-66 | `fabric.mod.json` returns the Fabric record's `ID` unchanged, or the decoder's error with `""`. |
| `FileReading.VelocityId` | src/filereading.go:120-132 | `velocity-plugin.json` returns the Velocity record's `ID` unchanged, or the decoder's error with `""`. |
| `FileReading.ForgeFamily` | src/filereading.go:67-106 | `mcmod.info` and `META-INF/mods.toml` are decoded by `NewForgeMod`, and `META-INF/neoforge.mods.toml` by `NewNeoForgeMod`. The result is `Mods[0].ModID`, or a panic when `Mods` is empty. |
| `FileReading.SpongeDialect` | src/filereading.go:107-119 | `META-INF/sponge_plugins.json` returns `Plugins[0].ID`, or a panic when `Plugins` is empty. |
| `FileReading.ForgeLegacyDecoderUnused` | src/filereading.go:67-79 | Replacing `NewForgeLegacyMod` changes no entry's outcome. |
| `FileReading.OnlySelectedDecoderMatters` | src/filereading.go:25-138 | A recognised entry's outcome depends only on its own read and the one decoder its path selects. |
| `FileReading.ReadJarFile` | src/filereading.go:140-158 | The loop over the entries returns exactly `Scan.Collect` of the entries under this dispatcher. |
| `FileReading.CollectSkipsUnknown` | src/filereading.go:148-152 | An entry with an unrecognised name leaves the scan result unchanged. |
| `FileReading.NoManifestNoMods` | src/filereading.go:147-157 | An archive with no recognised entry yields `([], nil)`. |
| `FileReading.SingleManifest` | src/filereading.go:147-157 | An archive with one recognised entry yields that entry's identifier, nothing if it fails, or a panic at its index. |
| `FileReading.FabricJarExample` | src/filereading.go:147-157 | `fabric.mod.json` with id "taterlib" among nine unrelated files yields `["taterlib"]`. Nothing is assumed of the other entries. |
| `Scan.Collect` | src/filereading.go:147-157 | A completed scan returns a nil error and at most one identifier per entry. A panicked scan names an index inside the archive. |
| `Scan.PanicIsFinal` | src/filereading.go:148-155 | Once an entry has panicked, later entries do not change the result. |
| `Scan.SkipFailure` | src/filereading.go:150-151 | An entry whose dispatch returns an error leaves the result unchanged. |
| `Scan.CollectAgrees` | src/filereading.go:148-155 | Dispatchers that agree on every entry give the same scan. |
| `Scan.CollectPanicsAtFirst` | src/filereading.go:148-155 | The scan panics exactly when some entry panics, and then at the first such entry. |
| `Scan.CollectKeepsSuccessesInOrder` | src/filereading.go:147-157 | A completed scan returns exactly the identifiers of the successful entries, in archive order. The indices are strictly increasing, and they cover every success and no failure. |
| `Cli.ReadZipPart` | main.go:29-144 | An unrecognised name gives `("", "unknown file")`. An error always comes with name `""`. |
| `Cli.DispatchersAgree` | main.go:29-144 | The program's switch and the library's dispatcher give the same outcome on every entry and every `Loader`. |
| `Cli.McmodInfoUsesForgeMod` | main.go:73-85 | `mcmod.info` is decoded by `NewForgeMod` and projected to `Mods[0].ModID`, or panics when `Mods` is empty. |
| `Cli.ReadJarFile` | main.go:146-164 | The program's loop returns exactly `Scan.Collect` of the entries under its dispatcher. |
| `Cli.JarScansAgree` | main.go:153-163 | The program's scan and the library's scan agree on every archive. |
| `Cli.Selected` | main.go:186-187 | The entries chosen for scanning are at most the listed ones, and all pass the test. |
| `Cli.Contains` | main.go:187 | `strings.Contains`: the empty string, a prefix and a suffix are contained. A contained string is no longer than the text. |
| `Cli.IsModJar` | main.go:187 | The test on one directory entry: not a directory, and its name contains ".jar" and "fabric". |
| `Cli.SelectedExactly` | main.go:187 | An entry is scanned exactly when it is listed and is not a directory, and its name contains ".jar" and "fabric". |
| `Cli.SelectedInOrder` | main.go:186-187 | The chosen entries sit at strictly increasing positions of the listing. Those positions are exactly the ones whose entry passes the test. |
| `Cli.ArchivePaths` | main.go:186-189 | Each chosen entry, in listing order, is scanned under the path `dir + "/" + name`. |
| `Cli.Walk` | main.go:186-196 | One printed identifier list per archive that returned, each the scan of that archive. When the process ends, it ends at the last archive handed to `readJarFile`. `log.Fatal` happens exactly when that archive did not open. A panic is the scan's panic at that entry. |
| `Cli.WalkHaltIsFinal` | main.go:147-150 | Once an archive has ended the process, the rest of the listing changes nothing. |
| `Cli.WalkFollowsSelection` | main.go:186-196 | The archives opened are a prefix of the chosen paths in listing order. They are all of them when the process did not end in the loop. |
| `Cli.ScanDirectory` | main.go:186-196 | The loop, calling the program's `readJarFile` on each chosen archive, computes exactly `Walk`. |
| `Cli.EmptyModsPanics` | main.go:86-97 | A jar holding only a `META-INF/mods.toml` with empty `Mods` panics at entry 0. |
| `Cli.EmptyModsEndsWalk` | main.go:186-196 | For `a-fabric.jar` followed by `b-fabric.jar`, if a's `mods.toml` has empty `Mods`, then b is never opened. |
| `Cli.ModJarAccepted` | main.go:187 | The substrings may appear anywhere, so "fabric-api.jar.disabled" is scanned. |
| `Cli.ModJarCaseSensitive` | main.go:187 | "Fabric-API.jar" and "fabric-api.JAR" are not scanned. |
| `Cli.ModJarRejected` | main.go:187 | Examples: "forge-mod.jar" is not scanned, and neither is a directory named "fabric-mods.jar". |

## Left out

- The eight decoders (`NewBukkitPlugin` … `NewVelocityPlugin`, and `NewForgeLegacyMod`) are unmarshalling calls into YAML, JSON and TOML libraries. Their code is not part of this model, so they are arbitrary functions in `Loader`. Nothing is claimed about Fabric author shapes, Forge dependency grouping, mixin order, or decoding the same text twice.
- `stringFromFile` (open the entry, read it all, close it) is I/O. It is the `read` field of `Loader`, which may fail.
- `zip.OpenReader` (src/filereading.go:141-145, main.go:147-151) is file I/O. Both `ReadJarFile` methods start from the opened archive's entry list. The library's `log.Fatal` on open failure is not modelled. `main`'s is: in `Cli.Walk` an archive that does not open is a `LogFatal` halt.
- The debug output `fmt.Println`/`fmt.Printf` (src/filereading.go:62, main.go:64, 68, 188-205) is console I/O.
- `flag` parsing, `os.ReadDir` with its `log.Fatal`, and the `-f` branch of `main` are process control and filesystem access. The directory listing is a parameter of `Cli.ScanDirectory`, and so is the map from archive paths to their opened entry lists.
- `strings.Contains` is library code. `Cli.Contains` states what it means: some offset at which the substring occurs, with the empty string occurring everywhere.
- The JSON/TOML/YAML record fields that the dispatcher never reads are left out of the record datatypes.
