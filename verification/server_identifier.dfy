/** Identification of the world or server the game client is on
    (`MinecraftServerIdentifier.getCurrentServerInfo`). */
module ServerIdentifier {
  import opened Wrappers
  import opened Wire

  /** The running integrated server of a singleplayer (or LAN) world; only
      its world-save root directory matters here. */
  datatype IntegratedServer = IntegratedServer(savePath: string)

  /** The multiplayer server entry; the name may be absent (Java `null`). */
  datatype ServerEntry = ServerEntry(name: Option<string>, address: string)

  /** The parts of the game client's state the identifier reads. */
  datatype MinecraftClient = MinecraftClient(
    worldLoaded: bool,
    inSingleplayer: bool,
    integratedServer: Option<IntegratedServer>,
    currentServerEntry: Option<ServerEntry>,
    runDirectory: string)

  /** Library operations taken as given deterministic functions:
      `UUID.nameUUIDFromBytes(s.getBytes()).toString()`, `base.relativize(p).toString()`,
      and `p.getFileName().toString()`. */
  datatype Platform = Platform(
    nameUuidFromBytes: string -> string,
    relativize: (string, string) -> string,
    fileName: string -> string)

  /** The info used when the client is on no world or server. */
  const Disconnected: ChatServerInfo := ChatServerInfo("Disconnected", "disconnected")

  /** The server info for the client's current world or server. */
  function GetCurrentServerInfo(client: MinecraftClient, platform: Platform): (info: ChatServerInfo)
    ensures !client.worldLoaded ==> info == Disconnected
    ensures client.worldLoaded && client.inSingleplayer && client.integratedServer.None? ==> info == Disconnected
    ensures client.worldLoaded && !client.inSingleplayer && client.currentServerEntry.None? ==> info == Disconnected
    ensures info != Disconnected ==>
              client.worldLoaded
              && (client.inSingleplayer ==> client.integratedServer.Some?)
              && (!client.inSingleplayer ==> client.currentServerEntry.Some?)
  {
    if !client.worldLoaded then Disconnected
    else if client.inSingleplayer then
      match client.integratedServer
      case None => Disconnected
      case Some(server) =>
        var worldName := platform.fileName(server.savePath);
        var rawIdentifier := platform.relativize(client.runDirectory, server.savePath);
        ChatServerInfo(worldName, platform.nameUuidFromBytes(rawIdentifier))
    else
      match client.currentServerEntry
      case None => Disconnected
      case Some(entry) =>
        var name := if entry.name.Some? then entry.name.value else entry.address;
        ChatServerInfo(name, platform.nameUuidFromBytes(entry.address))
  }

  /** On a singleplayer world, the name is the save folder's file name and the
      identifier is the name-based UUID of the save path relative to the game
      directory. */
  lemma SingleplayerIdentity(client: MinecraftClient, platform: Platform)
    requires client.worldLoaded && client.inSingleplayer && client.integratedServer.Some?
    ensures GetCurrentServerInfo(client, platform).name == platform.fileName(client.integratedServer.value.savePath)
    ensures GetCurrentServerInfo(client, platform).identifier
            == platform.nameUuidFromBytes(platform.relativize(client.runDirectory, client.integratedServer.value.savePath))
  {
  }

  /** On a multiplayer server, the name is the entry's name when it has one
      and otherwise its address. */
  lemma MultiplayerName(client: MinecraftClient, platform: Platform)
    requires client.worldLoaded && !client.inSingleplayer && client.currentServerEntry.Some?
    ensures var entry := client.currentServerEntry.value;
            GetCurrentServerInfo(client, platform).name == (if entry.name.Some? then entry.name.value else entry.address)
  {
  }

  /** The multiplayer identifier depends on the server address alone: two
      clients on entries with the same address get the same identifier,
      whatever the entry names, run directories or integrated servers. */
  lemma MultiplayerIdDependsOnlyOnAddress(a: MinecraftClient, b: MinecraftClient, platform: Platform)
    requires a.worldLoaded && !a.inSingleplayer && a.currentServerEntry.Some?
    requires b.worldLoaded && !b.inSingleplayer && b.currentServerEntry.Some?
    requires a.currentServerEntry.value.address == b.currentServerEntry.value.address
    ensures GetCurrentServerInfo(a, platform).identifier == GetCurrentServerInfo(b, platform).identifier
  {
  }

  /** The singleplayer identifier depends on the save path relative to the
      game directory alone. */
  lemma SingleplayerIdDependsOnlyOnRelativePath(a: MinecraftClient, b: MinecraftClient, platform: Platform)
    requires a.worldLoaded && a.inSingleplayer && a.integratedServer.Some?
    requires b.worldLoaded && b.inSingleplayer && b.integratedServer.Some?
    requires platform.relativize(a.runDirectory, a.integratedServer.value.savePath)
             == platform.relativize(b.runDirectory, b.integratedServer.value.savePath)
    ensures GetCurrentServerInfo(a, platform).identifier == GetCurrentServerInfo(b, platform).identifier
  {
  }
}
