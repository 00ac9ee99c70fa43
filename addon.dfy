/**
 * addon.py: the add-on object with its one nullable server slot, and the
 * handler table filled with the five inbound handlers when the module loads.
 */
module Addon {
  import opened Results
  import opened Messaging
  import opened Handle

  /**
   * A sync.Server as the slot sees it: where it listens and whether a client
   * socket is open. `connected` is `_ws` set and not closed (sync.py:56).
   * It is not Util.HostState.socket, which is only `_ws` set (sync.py:47):
   * `_ws` is never reset, so after a client leaves `connected` is false
   * while frames are still handed to the closed socket.
   */
  datatype Server = Server(host: string, port: nat, connected: bool)

  /** The address start_server binds: loopback only when the localhost preference is set. */
  function BindHost(localhost: bool): (h: string)
    ensures localhost <==> h == "localhost"
    ensures !localhost <==> h == "0.0.0.0"
  {
    if localhost then "localhost" else "0.0.0.0"
  }

  /** The table the module-level handlers.add calls build: each handler under its own tag. */
  function StandardTable(): (t: map<string, Kind>)
    ensures WellKeyed(t)
    ensures forall k: Kind :: Tag(k) in t && t[Tag(k)] == k
    ensures forall id :: id in t ==> |id| == IdSize
  {
    map[Tag(Batch) := Batch, Tag(Image) := Image, Tag(NewImage) := NewImage,
        Tag(TextureList) := TextureList, Tag(ChangeName) := ChangeName]
  }

  /** The Addon class: the handler table and the `_server` slot. */
  class Addon {
    var server: Option<Server>
    const handlers: Registry<Kind>

    constructor ()
      ensures server == None && handlers.messages == map[]
      ensures fresh(handlers)
    {
      server := None;
      handlers := new Registry<Kind>();
    }

    /** server_up. */
    predicate ServerUp()
      reads this
    {
      server.Some?
    }

    /** connected: false without a server, else the server's own connected flag. */
    function Connected(): (b: bool)
      reads this
      ensures b ==> ServerUp()
      ensures b <==> server.Some? && server.value.connected
    {
      server.Some? && server.value.connected
    }

    /**
     * start_server: a second start raises RuntimeError and keeps the running
     * server; otherwise the slot is filled first and start() runs after, so a
     * start that times out (RuntimeError) still leaves the server in the slot.
     */
    method StartServer(localhost: bool, port: nat, startTimesOut: bool) returns (r: Outcome)
      modifies this`server
      ensures old(server).Some? ==> r == Fail(RuntimeError) && server == old(server)
      ensures old(server).None? ==> server == Some(Server(BindHost(localhost), port, false))
      ensures old(server).None? ==> r == if startTimesOut then Fail(RuntimeError) else Pass
      ensures old(server).None? ==> ServerUp()
    {
      if server.Some? {
        return Fail(RuntimeError);
      }
      server := Some(Server(BindHost(localhost), port, false));
      if startTimesOut {
        return Fail(RuntimeError);
      }
      r := Pass;
    }

    /** stop_server: stopping an empty slot raises AttributeError; either way the slot ends empty. */
    method StopServer() returns (r: Outcome)
      modifies this`server
      ensures r == if old(server).None? then Fail(AttributeError) else Pass
      ensures server == None && !ServerUp()
    {
      if server.None? {
        return Fail(AttributeError);
      }
      server := None;
      r := Pass;
    }

    /** A client socket opening or closing on the running server (sync.Server._receive). */
    method SetConnected(connected: bool)
      requires ServerUp()
      modifies this`server
      ensures server == Some(old(server).value.(connected := connected))
      ensures Connected() == connected
    {
      server := Some(server.value.(connected := connected));
    }
  }

  /**
   * Module load: `addon = Addon()` then handlers.add for Batch, Image,
   * NewImage, TextureList and ChangeName; the tags are distinct, so no
   * registration trips the duplicate assertion.
   */
  method Load() returns (addon: Addon, outcomes: seq<Outcome>)
    ensures fresh(addon) && fresh(addon.handlers)
    ensures addon.server == None
    ensures outcomes == [Pass, Pass, Pass, Pass, Pass]
    ensures addon.handlers.messages == StandardTable()
  {
    addon := new Addon();
    var handlers := addon.handlers;
    var r1 := handlers.Add(Tag(Batch), Batch);
    var r2 := handlers.Add(Tag(Image), Image);
    var r3 := handlers.Add(Tag(NewImage), NewImage);
    var r4 := handlers.Add(Tag(TextureList), TextureList);
    var r5 := handlers.Add(Tag(ChangeName), ChangeName);
    outcomes := [r1, r2, r3, r4, r5];
  }
}
