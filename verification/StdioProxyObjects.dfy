/** The objects the proxy updates in place: one backend connection, and the module-level bindings. */
module StdioProxyObjects {
  import opened Options
  import opened StdioProxy

  class BackendConnection {
    const generation: nat
    const era: Era
    var inFlight: nat
    var retired: bool
    var retiredTimer: bool
    var closedFor: Option<CloseReason>
    var leasesAtClose: nat
    var closes: nat

    constructor (generation: nat, era: Era)
      ensures View() == NewConnection(era) && this.generation == generation
    {
      this.generation, this.era := generation, era;
      inFlight, retired, retiredTimer, closedFor, leasesAtClose, closes := 0, false, false, None, 0, 0;
    }

    function View(): Connection
      reads this
    {
      Connection(era, inFlight, retired, retiredTimer, closedFor, leasesAtClose, closes)
    }

    method CloseBackendConnection(reason: CloseReason)
      modifies this
      ensures View() == Close(old(View()), reason)
    {
      if closedFor.Some? { return; }
      if retiredTimer { retiredTimer := false; }
      closedFor := Some(reason);
      leasesAtClose := inFlight;
      closes := closes + 1;
    }

    method CloseRetiredBackend()
      modifies this
      ensures View() == CloseRetired(old(View()))
    {
      if !retired || inFlight != 0 { return; }
      CloseBackendConnection(Drained);
    }

    method OnDrainTimeout()
      modifies this
      ensures View() == DrainTimeoutFires(old(View()))
    {
      retiredTimer := false;
      if closedFor.Some? { return; }
      CloseBackendConnection(DrainTimeout);
    }

    method LendTo()
      modifies this
      ensures View() == Lend(old(View()))
    {
      inFlight := inFlight + 1;
    }

    method GiveBack()
      requires inFlight > 0
      modifies this
      ensures View() == Return(old(View()))
    {
      inFlight := inFlight - 1;
      CloseRetiredBackend();
    }
  }

  class Proxy {
    var backend: BackendConnection?
    var readOnlyToolNames: Option<set<Tool>>
    var toolMetadataGeneration: Option<nat>
    var retiredConnections: set<BackendConnection>

    constructor ()
      ensures backend == null && readOnlyToolNames.None? && toolMetadataGeneration.None? && retiredConnections == {}
    {
      backend, readOnlyToolNames, toolMetadataGeneration, retiredConnections := null, None, None, {};
    }

    method RetireBackend(connection: BackendConnection)
      modifies this`retiredConnections, connection
      ensures connection.View() == Retire(old(connection.View()))
      ensures retiredConnections == old(retiredConnections) + (if old(connection.retired) then {} else {connection})
    {
      if connection.retired { return; }
      connection.retired := true;
      retiredConnections := retiredConnections + {connection};
      connection.retiredTimer := true;
      connection.CloseRetiredBackend();
    }

    /** The continuation of the shared initial connection. */
    method FinishInitial(connection: BackendConnection) returns (active: BackendConnection)
      requires backend != connection
      modifies this, connection
      ensures backend == active && active == (if old(backend) == null then connection else old(backend))
      ensures old(backend) == null ==> connection.View() == old(connection.View()) && retiredConnections == old(retiredConnections)
      ensures old(backend) != null ==> connection.View() == Retire(old(connection.View()))
      ensures readOnlyToolNames == old(readOnlyToolNames) && toolMetadataGeneration == old(toolMetadataGeneration)
    {
      if backend == null { backend := connection; }
      if backend != connection { RetireBackend(connection); }
      active := backend;
    }

    /** The continuation of a reconnection: replace the failed connection unless it was replaced meanwhile. */
    method FinishReconnect(failed: BackendConnection, replacement: BackendConnection) returns (active: BackendConnection)
      requires backend != null && failed != replacement && backend != replacement
      modifies this, failed, replacement
      ensures backend == active && active == (if old(backend) == failed then replacement else old(backend))
      ensures old(backend) == failed ==>
                && readOnlyToolNames.None? && toolMetadataGeneration.None?
                && failed.View() == Retire(old(failed.View())) && replacement.View() == old(replacement.View())
      ensures old(backend) != failed ==>
                && readOnlyToolNames == old(readOnlyToolNames) && toolMetadataGeneration == old(toolMetadataGeneration)
                && replacement.View() == Retire(old(replacement.View())) && failed.View() == old(failed.View())
    {
      if backend != failed {
        RetireBackend(replacement);
        active := backend;
        return;
      }
      backend := replacement;
      readOnlyToolNames := None;
      toolMetadataGeneration := None;
      RetireBackend(failed);
      active := replacement;
    }

    /** A tools/list answer is stored only while the generation that gave it is still active. */
    method StoreToolsList(generation: nat, names: set<Tool>) returns (stored: bool)
      modifies this`readOnlyToolNames, this`toolMetadataGeneration
      ensures stored <==> backend != null && backend.generation == generation
      ensures stored ==> readOnlyToolNames == Some(names) && toolMetadataGeneration == Some(generation)
      ensures !stored ==> readOnlyToolNames == old(readOnlyToolNames) && toolMetadataGeneration == old(toolMetadataGeneration)
    {
      if backend == null || backend.generation != generation { return false; }
      readOnlyToolNames := Some(names);
      toolMetadataGeneration := Some(generation);
      stored := true;
    }
  }
}
