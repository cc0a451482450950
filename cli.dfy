/**
 * The command-line program's copy of the archive reader (its own
 * `readZipPart` and `readJarFile`, written out again in the program's main
 * package) and the test its directory walk applies to pick archives to scan.
 */
module Cli {
  import opened Manifest
  import opened Scan
  import FileReading

  /** The program's `readZipPart`: the same switch on the entry name, case by case in source order. */
  function ReadZipPart(e: Entry, env: Loader): (r: Outcome)
    ensures Classify(e.name).None? ==> r == Return("", Some(UnknownFile))
    ensures r.Return? && r.err.Some? ==> r.name == ""
  {
    if e.name == "plugin.yml" then
      (match env.read(e)
       case Failure(err) => Fail(err)
       case Success(fileStr) =>
         match env.newBukkitPlugin(fileStr)
         case Failure(err) => Fail(err)
         case Success(plugin) => Return(plugin.name, None))
    else if e.name == "bungee.yml" then
      (match env.read(e)
       case Failure(err) => Fail(err)
       case Success(fileStr) =>
         match env.newBungeeCordPlugin(fileStr)
         case Failure(err) => Fail(err)
         case Success(plugin) => Return(plugin.name, None))
    else if e.name == "fabric.mod.json" then
      (match env.read(e)
       case Failure(err) => Fail(err)
       case Success(fileStr) =>
         match env.newFabricMod(fileStr)
         case Failure(err) => Fail(err)
         case Success(plugin) => Return(plugin.id, None))
    else if e.name == "mcmod.info" then
      (match env.read(e)
       case Failure(err) => Fail(err)
       case Success(fileStr) =>
         match env.newForgeMod(fileStr)
         case Failure(err) => Fail(err)
         case Success(plugin) =>
           if |plugin.mods| == 0 then IndexOutOfRangePanic else Return(plugin.mods[0].modId, None))
    else if e.name == "META-INF/mods.toml" then
      (match env.read(e)
       case Failure(err) => Fail(err)
       case Success(fileStr) =>
         match env.newForgeMod(fileStr)
         case Failure(err) => Fail(err)
         case Success(plugin) =>
           if |plugin.mods| == 0 then IndexOutOfRangePanic else Return(plugin.mods[0].modId, None))
    else if e.name == "META-INF/neoforge.mods.toml" then
      (match env.read(e)
       case Failure(err) => Fail(err)
       case Success(fileStr) =>
         match env.newNeoForgeMod(fileStr)
         case Failure(err) => Fail(err)
         case Success(plugin) =>
           if |plugin.mods| == 0 then IndexOutOfRangePanic else Return(plugin.mods[0].modId, None))
    else if e.name == "META-INF/sponge_plugins.json" then
      (match env.read(e)
       case Failure(err) => Fail(err)
       case Success(fileStr) =>
         match env.newSpongePlugin(fileStr)
         case Failure(err) => Fail(err)
         case Success(plugin) =>
           if |plugin.plugins| == 0 then IndexOutOfRangePanic else Return(plugin.plugins[0].id, None))
    else if e.name == "velocity-plugin.json" then
      (match env.read(e)
       case Failure(err) => Fail(err)
       case Success(fileStr) =>
         match env.newVelocityPlugin(fileStr)
         case Failure(err) => Fail(err)
         case Success(plugin) => Return(plugin.id, None))
    else
      Return("", Some(UnknownFile))
  }

  /** The library's table-driven dispatcher and the program's switch agree on every entry. */
  lemma DispatchersAgree(e: Entry, env: Loader)
    ensures ReadZipPart(e, env) == FileReading.ReadZipPart(e, env)
  {
  }

  /** `mcmod.info` is decoded with `NewForgeMod` here too, and projected to `Mods[0].ModID`. */
  lemma McmodInfoUsesForgeMod(e: Entry, env: Loader, text: string, m: ForgeMod)
    requires e.name == "mcmod.info" && env.read(e) == Success(text)
    requires env.newForgeMod(text) == Success(m)
    ensures ReadZipPart(e, env) == if m.mods == [] then IndexOutOfRangePanic else Return(m.mods[0].modId, None)
  {
  }

  /** The program's dispatcher, as the per-entry step of the scan. */
  function Dispatcher(env: Loader): Entry -> Outcome
  {
    e => ReadZipPart(e, env)
  }

  /** The program's `readJarFile` on an archive already opened. */
  method ReadJarFile(entries: seq<Entry>, env: Loader) returns (r: JarResult)
    ensures r == Collect(entries, Dispatcher(env))
  {
    var mods: seq<string> := [];
    var i := 0;
    while i < |entries|
      invariant 0 <= i <= |entries|
      invariant Collect(entries[..i], Dispatcher(env)) == Returned(mods, None)
    {
      assert entries[..i + 1][..i] == entries[..i];
      var part := ReadZipPart(entries[i], env);
      match part
      case IndexOutOfRangePanic =>
        PanicIsFinal(entries, i + 1, Dispatcher(env));
        return Panicked(i);
      case Return(name, err) =>
        if err.Some? {
          i := i + 1;
          continue;
        } else {
          mods := mods + [name];
        }
      i := i + 1;
    }
    assert entries[..i] == entries;
    r := Returned(mods, None);
  }

  /** Both copies of the archive scan give the same result on every archive. */
  lemma JarScansAgree(entries: seq<Entry>, env: Loader)
    ensures Collect(entries, Dispatcher(env)) == Collect(entries, FileReading.Dispatcher(env))
  {
    forall j | 0 <= j < |entries|
      ensures Dispatcher(env)(entries[j]) == FileReading.Dispatcher(env)(entries[j])
    {
      DispatchersAgree(entries[j], env);
    }
    CollectAgrees(entries, Dispatcher(env), FileReading.Dispatcher(env));
  }

  /** `substr` occurs in `s` starting at index `i`. */
  predicate OccursAt(s: string, substr: string, i: nat)
  {
    i + |substr| <= |s| && s[i..i + |substr|] == substr
  }

  /** Go's `strings.Contains`: a case-sensitive substring test; the empty string occurs everywhere. */
  predicate Contains(s: string, substr: string): (r: bool)
    ensures substr == [] ==> r
    ensures |substr| <= |s| && s[..|substr|] == substr ==> r
    ensures |substr| <= |s| && s[|s| - |substr|..] == substr ==> r
    ensures r ==> |substr| <= |s|
  {
    assert |substr| <= |s| && s[..|substr|] == substr ==> OccursAt(s, substr, 0);
    assert |substr| <= |s| && s[|s| - |substr|..] == substr ==> OccursAt(s, substr, |s| - |substr|);
    exists i: nat :: i <= |s| - |substr| && OccursAt(s, substr, i)
  }

  /** A string lacking one of `substr`'s characters does not contain `substr`. */
  lemma MissingCharacter(s: string, substr: string, k: nat)
    requires k < |substr| && forall j :: 0 <= j < |s| ==> s[j] != substr[k]
    ensures !Contains(s, substr)
  {
    forall i: nat | i <= |s| - |substr| ensures !OccursAt(s, substr, i) {
      assert s[i..i + |substr|][k] == s[i + k];
    }
  }

  /** An entry of the directory given with `-i`, as `os.ReadDir` lists it. */
  datatype DirEntry = DirEntry(name: string, isDir: bool)

  /** The test `main` applies before scanning a directory entry. */
  predicate IsModJar(e: DirEntry)
  {
    !e.isDir && Contains(e.name, ".jar") && Contains(e.name, "fabric")
  }

  /** The entries `main` scans, in the order `os.ReadDir` lists them. */
  function Selected(entries: seq<DirEntry>): (r: seq<DirEntry>)
    ensures |r| <= |entries|
    ensures forall k :: 0 <= k < |r| ==> IsModJar(r[k])
  {
    if entries == [] then []
    else
      var last := |entries| - 1;
      Selected(entries[..last]) + if IsModJar(entries[last]) then [entries[last]] else []
  }

  /** An entry is scanned exactly when it is in the directory and passes the test. */
  lemma {:induction false} SelectedExactly(entries: seq<DirEntry>, x: DirEntry)
    ensures x in Selected(entries) <==> x in entries && IsModJar(x)
  {
    if entries != [] {
      var last := |entries| - 1;
      SelectedExactly(entries[..last], x);
      assert entries == entries[..last] + [entries[last]];
    }
  }

  /**
   * The chosen entries keep their listing order: they sit at strictly
   * increasing positions of the listing, which are exactly the positions of
   * the entries that pass the test.
   */
  lemma {:induction false} SelectedInOrder(entries: seq<DirEntry>) returns (picked: seq<nat>)
    ensures |picked| == |Selected(entries)|
    ensures forall k :: 0 <= k < |picked| ==> picked[k] < |entries| && entries[picked[k]] == Selected(entries)[k]
    ensures forall k, l :: 0 <= k < l < |picked| ==> picked[k] < picked[l]
    ensures forall j :: 0 <= j < |entries| ==> (j in picked <==> IsModJar(entries[j]))
  {
    if entries == [] {
      picked := [];
    } else {
      var last := |entries| - 1;
      var prefix := entries[..last];
      var prior := SelectedInOrder(prefix);
      assert forall j :: 0 <= j < last ==> prefix[j] == entries[j];
      if IsModJar(entries[last]) {
        picked := prior + [last];
      } else {
        picked := prior;
      }
    }
  }

  /** The path `dir + "/" + name` that `main` hands to `readJarFile` for each chosen entry, in listing order. */
  function ArchivePaths(inputDir: string, entries: seq<DirEntry>): (r: seq<string>)
    ensures |r| == |Selected(entries)|
    ensures forall k :: 0 <= k < |r| ==> r[k] == inputDir + "/" + Selected(entries)[k].name
  {
    if entries == [] then []
    else
      var last := |entries| - 1;
      ArchivePaths(inputDir, entries[..last]) + if IsModJar(entries[last]) then [inputDir + "/" + entries[last].name] else []
  }

  /**
   * Why the process ends inside the directory loop: `log.Fatal` when an
   * archive does not open, or the index panic raised at entry `at` of one.
   */
  datatype Halt = LogFatal(path: string) | Panic(path: string, at: nat)

  /**
   * How far the directory loop got: the paths it handed to `readJarFile`, the
   * identifier list it printed for each archive that returned, and how the
   * process ended if it did not finish the loop.
   */
  datatype Walked = Walked(scanned: seq<string>, reports: seq<seq<string>>, halt: Option<Halt>)

  /**
   * The directory loop over `entries` (the first `|entries|` of the listing).
   * `archives(path)` is the entry list `zip.OpenReader(path)` gives, or `None`
   * when the open fails. Once the process has ended, later entries change nothing.
   */
  function Walk(inputDir: string, entries: seq<DirEntry>, archives: string -> Option<seq<Entry>>, env: Loader): (r: Walked)
    ensures |r.reports| == if r.halt.Some? then |r.scanned| - 1 else |r.scanned|
    ensures forall k :: 0 <= k < |r.reports| ==>
      archives(r.scanned[k]).Some? && Collect(archives(r.scanned[k]).value, Dispatcher(env)) == Returned(r.reports[k], None)
    ensures r.halt.Some? ==> |r.scanned| > 0 && r.halt.value.path == r.scanned[|r.scanned| - 1]
    ensures r.halt.Some? ==> (r.halt.value.LogFatal? <==> archives(r.halt.value.path).None?)
    ensures r.halt.Some? && r.halt.value.Panic? ==>
      archives(r.halt.value.path).Some? && Collect(archives(r.halt.value.path).value, Dispatcher(env)) == Panicked(r.halt.value.at)
  {
    if entries == [] then Walked([], [], None)
    else
      var last := |entries| - 1;
      var w := Walk(inputDir, entries[..last], archives, env);
      var path := inputDir + "/" + entries[last].name;
      if w.halt.Some? || !IsModJar(entries[last]) then w
      else
        match archives(path)
        case None => Walked(w.scanned + [path], w.reports, Some(LogFatal(path)))
        case Some(zipListing) =>
          match Collect(zipListing, Dispatcher(env))
          case Panicked(at) => Walked(w.scanned + [path], w.reports, Some(Panic(path, at)))
          case Returned(mods, _) => Walked(w.scanned + [path], w.reports + [mods], None)
  }

  /** Once the process has ended at some entry, the rest of the listing is never looked at. */
  lemma {:induction false} WalkHaltIsFinal(inputDir: string, entries: seq<DirEntry>, n: nat,
                                           archives: string -> Option<seq<Entry>>, env: Loader)
    requires n <= |entries|
    requires Walk(inputDir, entries[..n], archives, env).halt.Some?
    ensures Walk(inputDir, entries, archives, env) == Walk(inputDir, entries[..n], archives, env)
    decreases |entries|
  {
    if n == |entries| {
      assert entries[..n] == entries;
    } else {
      var last := |entries| - 1;
      assert entries[..last][..n] == entries[..n];
      WalkHaltIsFinal(inputDir, entries[..last], n, archives, env);
    }
  }

  /**
   * The loop opens the chosen archives in listing order and no others: what it
   * scanned is a prefix of `ArchivePaths`, and all of it when the process did
   * not end inside the loop.
   */
  lemma {:induction false} WalkFollowsSelection(inputDir: string, entries: seq<DirEntry>,
                                                archives: string -> Option<seq<Entry>>, env: Loader)
    ensures Walk(inputDir, entries, archives, env).scanned <= ArchivePaths(inputDir, entries)
    ensures Walk(inputDir, entries, archives, env).halt.None? ==>
      Walk(inputDir, entries, archives, env).scanned == ArchivePaths(inputDir, entries)
  {
    if entries != [] {
      var last := |entries| - 1;
      WalkFollowsSelection(inputDir, entries[..last], archives, env);
    }
  }

  /** The directory loop of `main`, calling the program's `readJarFile` on each chosen archive. */
  method ScanDirectory(inputDir: string, entries: seq<DirEntry>, archives: string -> Option<seq<Entry>>, env: Loader)
    returns (r: Walked)
    ensures r == Walk(inputDir, entries, archives, env)
  {
    var scanned: seq<string> := [];
    var reports: seq<seq<string>> := [];
    for i := 0 to |entries|
      invariant Walk(inputDir, entries[..i], archives, env) == Walked(scanned, reports, None)
    {
      assert entries[..i + 1][..i] == entries[..i];
      var e := entries[i];
      if IsModJar(e) {
        var path := inputDir + "/" + e.name;
        scanned := scanned + [path];
        match archives(path)
        case None =>
          WalkHaltIsFinal(inputDir, entries, i + 1, archives, env);
          return Walked(scanned, reports, Some(LogFatal(path)));
        case Some(zipListing) =>
          var jar := ReadJarFile(zipListing, env);
          match jar
          case Panicked(at) =>
            WalkHaltIsFinal(inputDir, entries, i + 1, archives, env);
            return Walked(scanned, reports, Some(Panic(path, at)));
          case Returned(mods, _) =>
            reports := reports + [mods];
      }
    }
    assert entries[..|entries|] == entries;
    r := Walked(scanned, reports, None);
  }

  /** A jar whose only entry is a `META-INF/mods.toml` with an empty `Mods` list panics at that entry. */
  lemma EmptyModsPanics(env: Loader, text: string)
    requires env.read(Entry("META-INF/mods.toml", text)) == Success(text)
    requires env.newForgeMod(text) == Success(ForgeMod([]))
    ensures Collect([Entry("META-INF/mods.toml", text)], Dispatcher(env)) == Panicked(0)
  {
  }

  /**
   * An empty `Mods` list in the first archive ends the process there: the
   * second archive is never opened, whatever it holds.
   */
  lemma EmptyModsEndsWalk(archives: string -> Option<seq<Entry>>, env: Loader, text: string)
    requires archives("mods/a-fabric.jar") == Some([Entry("META-INF/mods.toml", text)])
    requires env.read(Entry("META-INF/mods.toml", text)) == Success(text)
    requires env.newForgeMod(text) == Success(ForgeMod([]))
    ensures Walk("mods", [DirEntry("a-fabric.jar", false), DirEntry("b-fabric.jar", false)], archives, env)
      == Walked(["mods/a-fabric.jar"], [], Some(Panic("mods/a-fabric.jar", 0)))
  {
    var entries := [DirEntry("a-fabric.jar", false), DirEntry("b-fabric.jar", false)];
    assert IsModJar(entries[0]) by {
      assert OccursAt("a-fabric.jar", ".jar", 8);
      assert OccursAt("a-fabric.jar", "fabric", 2);
    }
    EmptyModsPanics(env, text);
    assert "mods" + "/" + "a-fabric.jar" == "mods/a-fabric.jar";
    assert entries[..1][..0] == [] && entries[..1][0] == entries[0];
    assert Walk("mods", entries[..1], archives, env) == Walked(["mods/a-fabric.jar"], [], Some(Panic("mods/a-fabric.jar", 0)));
    WalkHaltIsFinal("mods", entries, 1, archives, env);
  }

  /** Names containing both substrings are scanned, wherever the substrings stand. */
  lemma ModJarAccepted()
    ensures IsModJar(DirEntry("fabric-api-0.92.2.jar", false))
    ensures IsModJar(DirEntry("sodium-fabric-0.5.8.jar", false))
    ensures IsModJar(DirEntry("fabric-api.jar.disabled", false))
  {
    assert OccursAt("fabric-api-0.92.2.jar", ".jar", 17);
    assert OccursAt("fabric-api-0.92.2.jar", "fabric", 0);
    assert OccursAt("sodium-fabric-0.5.8.jar", ".jar", 19);
    assert OccursAt("sodium-fabric-0.5.8.jar", "fabric", 7);
    assert OccursAt("fabric-api.jar.disabled", ".jar", 10);
    assert OccursAt("fabric-api.jar.disabled", "fabric", 0);
  }

  /** The substring tests are case-sensitive. */
  lemma ModJarCaseSensitive()
    ensures !IsModJar(DirEntry("Fabric-API.jar", false))
    ensures !IsModJar(DirEntry("fabric-api.JAR", false))
  {
    MissingCharacter("Fabric-API.jar", "fabric", 0);
    MissingCharacter("fabric-api.JAR", ".jar", 1);
  }

  /** A jar without "fabric" in its name, and any directory, is never scanned. */
  lemma ModJarRejected()
    ensures !IsModJar(DirEntry("forge-mod.jar", false))
    ensures !IsModJar(DirEntry("fabric-mods.jar", true))
  {
    MissingCharacter("forge-mod.jar", "fabric", 2);
  }
}
