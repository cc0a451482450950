/**
 * Shared vocabulary of the metadata reader: archive entries, the records the
 * eight manifest decoders produce (only the fields the dispatcher reads), the
 * decoders themselves as an abstract `Loader`, the closed table of manifest
 * paths, and the Go-style results of reading one entry and one archive.
 */
module Manifest {

  /** An `Option`, used for Go's nil-or-error and for partial lookups. */
  datatype Option<+T> = None | Some(value: T)

  /** The opaque error value a read or a decoder hands back (Go's `error`). */
  datatype Cause = Cause(message: string)

  /** A decoder's or a read's result: Go's `(T, error)` with the value ignored on error. */
  datatype Result<+T> = Success(value: T) | Failure(cause: Cause)

  /** The errors `readZipPart` can return: its own "unknown file" or one it passes on unchanged. */
  datatype Error = UnknownFile | Propagated(cause: Cause)
  {
    /** The text of the error, as Go's `err.Error()` would give it. */
    function Message(): string
    {
      match this
      case UnknownFile => "unknown file"
      case Propagated(c) => c.message
    }
  }

  /** One file inside the archive: the path exactly as stored, and its stored text. */
  datatype Entry = Entry(name: string, contents: string)

  // Records, reduced to what the dispatcher projects out of them.
  datatype BukkitPlugin = BukkitPlugin(name: string)
  datatype BungeeCordPlugin = BungeeCordPlugin(name: string)
  datatype FabricMod = FabricMod(id: string)
  datatype ForgeLegacyMod = ForgeLegacyMod(modId: string)
  datatype ForgeModInfo = ForgeModInfo(modId: string)
  datatype ForgeMod = ForgeMod(mods: seq<ForgeModInfo>)
  datatype NeoForgeModInfo = NeoForgeModInfo(modId: string)
  datatype NeoForgeMod = NeoForgeMod(mods: seq<NeoForgeModInfo>)
  datatype SpongePluginInfo = SpongePluginInfo(id: string)
  datatype SpongePlugin = SpongePlugin(plugins: seq<SpongePluginInfo>)
  datatype VelocityPlugin = VelocityPlugin(id: string)

  /**
   * Everything the dispatcher calls but whose code is not modelled: reading an
   * entry's bytes (`stringFromFile`: open, read all, close) and the eight
   * unmarshalling constructors. Any functions at all may be plugged in.
   */
  datatype Loader = Loader(
    read: Entry -> Result<string>,
    newBukkitPlugin: string -> Result<BukkitPlugin>,
    newBungeeCordPlugin: string -> Result<BungeeCordPlugin>,
    newFabricMod: string -> Result<FabricMod>,
    newForgeLegacyMod: string -> Result<seq<ForgeLegacyMod>>,
    newForgeMod: string -> Result<ForgeMod>,
    newNeoForgeMod: string -> Result<NeoForgeMod>,
    newSpongePlugin: string -> Result<SpongePlugin>,
    newVelocityPlugin: string -> Result<VelocityPlugin>)

  /** The eight recognised manifests, one per path constant of the dispatch table. */
  datatype Dialect =
    | Bukkit | BungeeCord | Fabric | ForgeLegacy | Forge | NeoForge | Sponge | Velocity

  /** The decoders the dispatcher invokes (`NewForgeLegacyMod` is not among them). */
  datatype Decoder =
    | BukkitDecoder | BungeeCordDecoder | FabricDecoder | ForgeDecoder
    | NeoForgeDecoder | SpongeDecoder | VelocityDecoder

  /** The path constant that selects a dialect. */
  function Path(d: Dialect): string
  {
    match d
    case Bukkit => "plugin.yml"
    case BungeeCord => "bungee.yml"
    case Fabric => "fabric.mod.json"
    case ForgeLegacy => "mcmod.info"
    case Forge => "META-INF/mods.toml"
    case NeoForge => "META-INF/neoforge.mods.toml"
    case Sponge => "META-INF/sponge_plugins.json"
    case Velocity => "velocity-plugin.json"
  }

  /** Exact, case-sensitive lookup of an entry name in the dispatch table. */
  function Classify(name: string): (r: Option<Dialect>)
    ensures r.Some? ==> Path(r.value) == name
    ensures r.None? <==> forall d: Dialect :: Path(d) != name
  {
    if name == "plugin.yml" then Some(Bukkit)
    else if name == "bungee.yml" then Some(BungeeCord)
    else if name == "fabric.mod.json" then Some(Fabric)
    else if name == "mcmod.info" then Some(ForgeLegacy)
    else if name == "META-INF/mods.toml" then Some(Forge)
    else if name == "META-INF/neoforge.mods.toml" then Some(NeoForge)
    else if name == "META-INF/sponge_plugins.json" then Some(Sponge)
    else if name == "velocity-plugin.json" then Some(Velocity)
    else None
  }

  /** The decoder each case of the switch calls; `mcmod.info` goes to the TOML Forge decoder. */
  function DecoderOf(d: Dialect): (r: Decoder)
    ensures r == ForgeDecoder <==> d == ForgeLegacy || d == Forge
    ensures r == NeoForgeDecoder <==> d == NeoForge
    ensures r == SpongeDecoder <==> d == Sponge
  {
    match d
    case Bukkit => BukkitDecoder
    case BungeeCord => BungeeCordDecoder
    case Fabric => FabricDecoder
    case ForgeLegacy => ForgeDecoder
    case Forge => ForgeDecoder
    case NeoForge => NeoForgeDecoder
    case Sponge => SpongeDecoder
    case Velocity => VelocityDecoder
  }

  /**
   * What one call of `readZipPart` does: return Go's `(name, err)` pair, or
   * abort with the runtime panic that indexing an empty slice at `[0]` raises.
   */
  datatype Outcome = Return(name: string, err: Option<Error>) | IndexOutOfRangePanic

  /** The `return "", err` of every branch whose read or decoder fails. */
  function Fail(c: Cause): Outcome
  {
    Return("", Some(Propagated(c)))
  }

  /**
   * What one call of `ReadJarFile` on an opened archive does: return the
   * `(mods, err)` pair, or abort with the panic raised while dispatching the
   * entry at index `at`.
   */
  datatype JarResult = Returned(mods: seq<string>, err: Option<Error>) | Panicked(at: nat)

  /** The paths are pairwise distinct: each name selects at most one dialect. */
  lemma PathsDistinct(d1: Dialect, d2: Dialect)
    ensures Path(d1) == Path(d2) <==> d1 == d2
  {
  }

  /** Looking up a path constant gives back its own dialect. */
  lemma ClassifyPath(d: Dialect)
    ensures Classify(Path(d)) == Some(d)
  {
  }

  /** Two of the table's paths share a decoder; no other decoder is shared. */
  lemma DecoderRouting(d1: Dialect, d2: Dialect)
    ensures DecoderOf(d1) == DecoderOf(d2) <==> d1 == d2 || {d1, d2} == {ForgeLegacy, Forge}
  {
  }

  /** No path constant is another one with text added in front after a `/`. */
  lemma NoPathBehindSlash(d: Dialect, d2: Dialect)
    ensures |Path(d2)| <= |Path(d)| + 1
      || Path(d2)[|Path(d2)| - |Path(d)| - 1] != '/'
      || Path(d2)[|Path(d2)| - |Path(d)|..] != Path(d)
  {
  }

  /** No path constant is a proper prefix of another. */
  lemma NoPathExtendsPath(d: Dialect, d2: Dialect)
    ensures |Path(d2)| <= |Path(d)| || Path(d2)[..|Path(d)|] != Path(d)
  {
    if |Path(d)| < |Path(d2)| {
      var p, q := Path(d), Path(d2);
      // Every such pair differs at its first character or, for the `META-INF/` paths, its tenth.
      assert p[0] != q[0] || p[9] != q[9];
    }
  }

  /** A manifest path under any directory prefix selects nothing: `lib/plugin.yml` is not `plugin.yml`. */
  lemma PrefixedSelectsNothing(dir: string, d: Dialect)
    requires dir != []
    ensures Classify(dir + "/" + Path(d)) == None
  {
    var name := dir + "/" + Path(d);
    forall d2: Dialect ensures Path(d2) != name {
      NoPathBehindSlash(d, d2);
      assert name[|name| - |Path(d)| - 1] == '/';
      assert name[|name| - |Path(d)|..] == Path(d);
    }
  }

  /** A manifest path with anything appended selects nothing: `plugin.yml.bak` is not `plugin.yml`. */
  lemma ExtendedSelectsNothing(d: Dialect, suffix: string)
    requires suffix != []
    ensures Classify(Path(d) + suffix) == None
  {
    var name := Path(d) + suffix;
    forall d2: Dialect ensures Path(d2) != name {
      NoPathExtendsPath(d, d2);
      assert name[..|Path(d)|] == Path(d);
    }
  }

  /** Matching is exact: no case folding, no directory prefix, no suffix match. */
  lemma ClassifyIsExact()
    ensures Classify("PLUGIN.YML") == None
    ensures Classify("Plugin.yml") == None
    ensures Classify("config/plugin.yml") == None
    ensures Classify("mods.toml") == None
    ensures Classify("META-INF/mods.toml.bak") == None
    ensures Classify("META-INF/mods.toml") == Some(Forge)
  {
  }
}
