/**
 * The library's archive reader: `readZipPart`, which maps one archive entry to
 * the identifier of the manifest it holds, and `ReadJarFile`, which collects
 * those identifiers over all entries of an opened archive.
 */
module FileReading {
  import opened Manifest
  import opened Scan

  /** Run the selected decoder on the entry's text and project the identifier out of its record. */
  function Invoke(dec: Decoder, text: string, env: Loader): (r: Outcome)
    ensures r.Return? && r.err.Some? ==> r.name == "" && r.err.value.Propagated?
    ensures r.IndexOutOfRangePanic? ==> dec in {ForgeDecoder, NeoForgeDecoder, SpongeDecoder}
  {
    match dec
    case BukkitDecoder =>
      (match env.newBukkitPlugin(text)
       case Failure(c) => Fail(c)
       case Success(plugin) => Return(plugin.name, None))
    case BungeeCordDecoder =>
      (match env.newBungeeCordPlugin(text)
       case Failure(c) => Fail(c)
       case Success(plugin) => Return(plugin.name, None))
    case FabricDecoder =>
      (match env.newFabricMod(text)
       case Failure(c) => Fail(c)
       case Success(plugin) => Return(plugin.id, None))
    case ForgeDecoder =>
      (match env.newForgeMod(text)
       case Failure(c) => Fail(c)
       case Success(plugin) =>
         if |plugin.mods| == 0 then IndexOutOfRangePanic else Return(plugin.mods[0].modId, None))
    case NeoForgeDecoder =>
      (match env.newNeoForgeMod(text)
       case Failure(c) => Fail(c)
       case Success(plugin) =>
         if |plugin.mods| == 0 then IndexOutOfRangePanic else Return(plugin.mods[0].modId, None))
    case SpongeDecoder =>
      (match env.newSpongePlugin(text)
       case Failure(c) => Fail(c)
       case Success(plugin) =>
         if |plugin.plugins| == 0 then IndexOutOfRangePanic else Return(plugin.plugins[0].id, None))
    case VelocityDecoder =>
      (match env.newVelocityPlugin(text)
       case Failure(c) => Fail(c)
       case Success(plugin) => Return(plugin.id, None))
  }

  /**
   * `readZipPart`: an unknown name fails at once; a known one is read, decoded
   * by its dialect's decoder, and projected to that dialect's identifier.
   */
  function ReadZipPart(e: Entry, env: Loader): (r: Outcome)
    ensures r.Return? && r.err.Some? ==> r.name == ""
    ensures r == Return("", Some(UnknownFile)) <==> Classify(e.name).None?
    ensures Classify(e.name).Some? && env.read(e).Failure? ==> r == Fail(env.read(e).cause)
    ensures r.IndexOutOfRangePanic? ==>
              Classify(e.name).Some? && env.read(e).Success? &&
              DecoderOf(Classify(e.name).value) in {ForgeDecoder, NeoForgeDecoder, SpongeDecoder}
  {
    match Classify(e.name)
    case None => Return("", Some(UnknownFile))
    case Some(d) =>
      match env.read(e)
      case Failure(c) => Fail(c)
      case Success(text) => Invoke(DecoderOf(d), text, env)
  }

  /** An unrecognised name gives "unknown file" whatever the read and the decoders would do. */
  lemma UnknownNameNeverDecoded(e: Entry, env1: Loader, env2: Loader)
    requires forall d: Dialect :: Path(d) != e.name
    ensures ReadZipPart(e, env1) == ReadZipPart(e, env2) == Return("", Some(UnknownFile))
    ensures ReadZipPart(e, env1).err.value.Message() == "unknown file"
  {
  }

  /** Both YAML dialects return the record's `Name` unchanged. */
  lemma NameDialects(e: Entry, env: Loader, text: string)
    requires env.read(e) == Success(text)
    ensures e.name == "plugin.yml" ==>
              ReadZipPart(e, env) == match env.newBukkitPlugin(text)
                                     case Success(p) => Return(p.name, None)
                                     case Failure(c) => Return("", Some(Propagated(c)))
    ensures e.name == "bungee.yml" ==>
              ReadZipPart(e, env) == match env.newBungeeCordPlugin(text)
                                     case Success(p) => Return(p.name, None)
                                     case Failure(c) => Return("", Some(Propagated(c)))
  {
  }

  /** `fabric.mod.json` returns the Fabric record's `ID` unchanged. */
  lemma FabricId(e: Entry, env: Loader, text: string)
    requires e.name == "fabric.mod.json" && env.read(e) == Success(text)
    ensures ReadZipPart(e, env) == match env.newFabricMod(text)
                                   case Success(m) => Return(m.id, None)
                                   case Failure(c) => Return("", Some(Propagated(c)))
  {
  }

  /** `velocity-plugin.json` returns the Velocity record's `ID` unchanged. */
  lemma VelocityId(e: Entry, env: Loader, text: string)
    requires e.name == "velocity-plugin.json" && env.read(e) == Success(text)
    ensures ReadZipPart(e, env) == match env.newVelocityPlugin(text)
                                   case Success(p) => Return(p.id, None)
                                   case Failure(c) => Return("", Some(Propagated(c)))
  {
  }

  /**
   * `mcmod.info` and `META-INF/mods.toml` both go through `NewForgeMod`,
   * `META-INF/neoforge.mods.toml` through `NewNeoForgeMod`; the identifier is
   * element zero's `ModID`, and an empty `Mods` list panics.
   */
  lemma ForgeFamily(e: Entry, env: Loader, text: string)
    requires env.read(e) == Success(text)
    ensures e.name == "mcmod.info" || e.name == "META-INF/mods.toml" ==>
              ReadZipPart(e, env) == match env.newForgeMod(text)
                                     case Success(m) =>
                                       if m.mods == [] then IndexOutOfRangePanic
                                       else Return(m.mods[0].modId, None)
                                     case Failure(c) => Return("", Some(Propagated(c)))
    ensures e.name == "META-INF/neoforge.mods.toml" ==>
              ReadZipPart(e, env) == match env.newNeoForgeMod(text)
                                     case Success(m) =>
                                       if m.mods == [] then IndexOutOfRangePanic
                                       else Return(m.mods[0].modId, None)
                                     case Failure(c) => Return("", Some(Propagated(c)))
  {
  }

  /** `META-INF/sponge_plugins.json` returns `Plugins[0].ID`; an empty `Plugins` list panics. */
  lemma SpongeDialect(e: Entry, env: Loader, text: string)
    requires env.read(e) == Success(text)
    ensures e.name == "META-INF/sponge_plugins.json" ==>
              ReadZipPart(e, env) == match env.newSpongePlugin(text)
                                     case Success(s) =>
                                       if s.plugins == [] then IndexOutOfRangePanic
                                       else Return(s.plugins[0].id, None)
                                     case Failure(c) => Return("", Some(Propagated(c)))
  {
  }

  /** The decoder NewForgeLegacyMod is never consulted, for any entry. */
  lemma ForgeLegacyDecoderUnused(e: Entry, env: Loader, f: string -> Result<seq<ForgeLegacyMod>>)
    ensures ReadZipPart(e, env.(newForgeLegacyMod := f)) == ReadZipPart(e, env)
  {
  }

  /** `env1` and `env2` have the same decoder `dec` at `text`. */
  predicate DecoderAgrees(dec: Decoder, env1: Loader, env2: Loader, text: string)
  {
    match dec
    case BukkitDecoder => env1.newBukkitPlugin(text) == env2.newBukkitPlugin(text)
    case BungeeCordDecoder => env1.newBungeeCordPlugin(text) == env2.newBungeeCordPlugin(text)
    case FabricDecoder => env1.newFabricMod(text) == env2.newFabricMod(text)
    case ForgeDecoder => env1.newForgeMod(text) == env2.newForgeMod(text)
    case NeoForgeDecoder => env1.newNeoForgeMod(text) == env2.newNeoForgeMod(text)
    case SpongeDecoder => env1.newSpongePlugin(text) == env2.newSpongePlugin(text)
    case VelocityDecoder => env1.newVelocityPlugin(text) == env2.newVelocityPlugin(text)
  }

  /**
   * A recognised entry's outcome depends on nothing but its own read and the
   * one decoder its path selects, applied to the text read.
   */
  lemma OnlySelectedDecoderMatters(e: Entry, env1: Loader, env2: Loader)
    requires Classify(e.name).Some?
    requires env1.read(e) == env2.read(e)
    requires env1.read(e).Success? ==>
               DecoderAgrees(DecoderOf(Classify(e.name).value), env1, env2, env1.read(e).value)
    ensures ReadZipPart(e, env1) == ReadZipPart(e, env2)
  {
  }

  /** The dispatcher of this file, as the per-entry step of the scan. */
  function Dispatcher(env: Loader): Entry -> Outcome
  {
    e => ReadZipPart(e, env)
  }

  /** `ReadJarFile` on an archive already opened, given its entries in stored order. */
  method ReadJarFile(entries: seq<Entry>, env: Loader) returns (r: JarResult)
    ensures r == Collect(entries, Dispatcher(env))
  {
    var mods: seq<string> := [];
    var i := 0;
    while i < |entries|
      invariant 0 <= i <= |entries|
      invariant Collect(entries[..i], Dispatcher(env)) == Returned(mods, None)
    {
      assert entries[..i + 1][..i] == entries[..i];
      var part := ReadZipPart(entries[i], env);
      match part
      case IndexOutOfRangePanic =>
        PanicIsFinal(entries, i + 1, Dispatcher(env));
        return Panicked(i);
      case Return(name, err) =>
        if err.Some? {
          i := i + 1;
          continue;
        } else {
          mods := mods + [name];
        }
      i := i + 1;
    }
    assert entries[..i] == entries;
    r := Returned(mods, None);
  }

  /** An entry whose name is not in the table leaves the scan's result unchanged. */
  lemma CollectSkipsUnknown(entries: seq<Entry>, e: Entry, env: Loader)
    requires Classify(e.name).None?
    ensures Collect(entries + [e], Dispatcher(env)) == Collect(entries, Dispatcher(env))
  {
  }

  /** An archive with no recognised entry yields no identifiers and no error. */
  lemma {:induction false} NoManifestNoMods(entries: seq<Entry>, env: Loader)
    requires forall j :: 0 <= j < |entries| ==> Classify(entries[j].name).None?
    ensures Collect(entries, Dispatcher(env)) == Returned([], None)
  {
    if entries != [] {
      var last := |entries| - 1;
      assert forall j :: 0 <= j < last ==> entries[..last][j] == entries[j];
      NoManifestNoMods(entries[..last], env);
      CollectSkipsUnknown(entries[..last], entries[last], env);
      assert entries[..last] + [entries[last]] == entries;
    }
  }

  /**
   * An archive whose only recognised entry is at index `i` yields exactly what
   * dispatching that entry yields, wherever it stands among the others.
   */
  lemma {:induction false} SingleManifest(entries: seq<Entry>, i: nat, env: Loader)
    requires i < |entries|
    requires forall j :: 0 <= j < |entries| && j != i ==> Classify(entries[j].name).None?
    ensures Collect(entries, Dispatcher(env)) ==
              match ReadZipPart(entries[i], env)
              case IndexOutOfRangePanic => Panicked(i)
              case Return(name, err) => Returned(if err.None? then [name] else [], None)
  {
    var last := |entries| - 1;
    var prefix := entries[..last];
    assert forall j :: 0 <= j < last ==> prefix[j] == entries[j];
    assert prefix + [entries[last]] == entries;
    if i == last {
      NoManifestNoMods(prefix, env);
    } else {
      SingleManifest(prefix, i, env);
      CollectSkipsUnknown(prefix, entries[last], env);
    }
  }

  /**
   * A jar holding `fabric.mod.json` with identifier "taterlib" among nine
   * unrelated files yields exactly ["taterlib"]; nothing is assumed of the
   * read or the decoders on the other nine.
   */
  lemma FabricJarExample(env: Loader, doc: string)
    requires env.read(Entry("fabric.mod.json", doc)) == Success(doc)
    requires env.newFabricMod(doc) == Success(FabricMod("taterlib"))
    ensures Collect([
                      Entry("META-INF/MANIFEST.MF", ""),
                      Entry("META-INF/", ""),
                      Entry("fabric.mod.json", doc),
                      Entry("taterlib.mixins.json", ""),
                      Entry("assets/taterlib/icon.png", ""),
                      Entry("dev/neuralnexus/taterlib/TaterLib.class", ""),
                      Entry("Plugin.yml", ""),
                      Entry("META-INF/MODS.TOML", ""),
                      Entry("fabric.mod.json.bak", ""),
                      Entry("config/plugin.yml", "")
                    ], Dispatcher(env)) == Returned(["taterlib"], None)
  {
    var entries := [
      Entry("META-INF/MANIFEST.MF", ""),
      Entry("META-INF/", ""),
      Entry("fabric.mod.json", doc),
      Entry("taterlib.mixins.json", ""),
      Entry("assets/taterlib/icon.png", ""),
      Entry("dev/neuralnexus/taterlib/TaterLib.class", ""),
      Entry("Plugin.yml", ""),
      Entry("META-INF/MODS.TOML", ""),
      Entry("fabric.mod.json.bak", ""),
      Entry("config/plugin.yml", "")
    ];
    SingleManifest(entries, 2, env);
  }
}
