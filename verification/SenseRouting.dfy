/**
 Battery sense routing (hardware/sense_router.py): logical sense channels, the table that places
 them on relay matrices, the cache of connected matrices, and the sense read that uses it.
 */
module SenseRouting {
  import opened Collections
  import opened Results
  import opened RelayMatrix

  /** One row of SENSE_ROUTING. */
  datatype Entry = Entry(matrix: string, relay: int)

  datatype MatrixConfig = MatrixConfig(numChannels: nat, width: Width, settleTime: real, faithfulWrites: bool)

  /** Relays on a module. */
  type Width = n: nat | n <= 32

  datatype SenseError =
    | Configuration               // ConfigurationError: unknown channel or unknown matrix
    | ConnectFailed               // the matrix could not be reached
    | Relay(failure: Failure)     // raised by the matrix driver

  /** The part of the table that lives on one matrix. */
  function OnMatrix(routing: map<int, Entry>, matrix: string): map<int, int> {
    map c | c in routing && routing[c].matrix == matrix :: routing[c].relay
  }

  datatype CacheEvent = Connected(matrix: string) | Unreachable(matrix: string) | ShutDown

  /** The matrices created and connected since the last shutdown, in order. */
  ghost function ConnectedSince(history: seq<CacheEvent>): seq<string> {
    if history == [] then []
    else
      match history[|history| - 1]
      case ShutDown => []
      case Connected(m) => ConnectedSince(history[..|history| - 1]) + [m]
      case Unreachable(_) => ConnectedSince(history[..|history| - 1])
  }

  class NumatoSenseRouter {
    const relay: NumatoRelayMatrix
    const channelToRelay: map<int, int>

    constructor (relay: NumatoRelayMatrix, channelToRelay: map<int, int>)
      ensures this.relay == relay && this.channelToRelay == channelToRelay
    {
      this.relay, this.channelToRelay := relay, channelToRelay;
    }

    /** `connect`: exactly the mapped relay is energised on a normal return. */
    method Connect(channel: int) returns (r: Result<(), SenseError>)
      requires relay.Valid()
      modifies relay
      ensures relay.Valid()
      ensures r == Err(Configuration) <==> channel !in channelToRelay
      ensures r == Err(Configuration) ==> unchanged(relay)
      ensures channel in channelToRelay ==> relay.returned == old(relay.returned) + [Raised(r)]
      ensures r.Ok? ==> relay.bank == {channelToRelay[channel] - 1} && relay.settleTime > 0.0
      ensures r.Err? ==> r.error == Configuration || r.error.Relay?
    {
      if channel !in channelToRelay {
        return Err(Configuration);
      }
      var closed := relay.Close(channelToRelay[channel]);
      return if closed.Ok? then Ok(()) else Err(Relay(closed.error));
    }

    /** `disconnect`: the whole matrix is off on a normal return. */
    method Disconnect(channel: int) returns (r: Result<(), SenseError>)
      requires relay.Valid()
      modifies relay
      ensures relay.Valid()
      ensures r == Err(Configuration) <==> channel !in channelToRelay
      ensures r == Err(Configuration) ==> unchanged(relay)
      ensures channel in channelToRelay ==> relay.returned == old(relay.returned) + [Raised(r)]
      ensures r.Ok? ==> relay.bank == {}
      ensures r.Err? ==> r.error == Configuration || r.error.Relay?
    {
      if channel !in channelToRelay {
        return Err(Configuration);
      }
      var released := relay.Open(channelToRelay[channel]);
      return if released.Ok? then Ok(()) else Err(Relay(released.error));
    }
  }

  /** What of a result the matrix driver raised. */
  ghost function Raised(r: Result<(), SenseError>): Option<Failure> {
    if r.Err? && r.error.Relay? then Some(r.error.failure) else None
  }

  /** Creates the driver of one matrix, whose relays may be in any state, and connects it; null exactly if that fails. */
  method CreateAndConnect(cfg: MatrixConfig) returns (relay: NumatoRelayMatrix?, ghost made: NumatoRelayMatrix)
    ensures fresh(made) && made.Valid() && made.numChannels == cfg.numChannels
    ensures relay == if made.connected then made else null
  {
    var found: set<nat> := *;
    relay := new NumatoRelayMatrix(cfg.numChannels, cfg.width, cfg.settleTime, cfg.faithfulWrites, set n: nat | n in found && n < cfg.width);
    made := relay;
    var connected := relay.Connect();
    if connected.Err? {
      relay := null;
    }
  }

  /** `measure_dc_voltage`: the voltage at the terminals with these sense relays energised; where there is none the DMM fails. */
  method MeasureDcVoltage(terminals: set<nat> -> Option<real>, energised: set<nat>) returns (r: Result<real, ReadError>)
    ensures r == match terminals(energised) case Some(v) => Ok(v) case None => Err(DmmFailed)
  {
    var reading := terminals(energised);
    if reading.None? {
      return Err(DmmFailed);
    }
    return Ok(reading.value);
  }

  datatype Step =
    | ConnectStep(channel: int)
    | DisconnectStep(channel: int)
    | ShutdownStep
    | SenseStep(sense: Option<int>, terminals: set<nat> -> Option<real>)

  class ConfigDrivenSenseRouter {
    const senseRouting: map<int, Entry>
    const matrixConfigs: map<string, MatrixConfig>

    // `_routers_by_matrix`, and the order in which its keys were inserted
    var routers: map<string, NumatoSenseRouter>
    var order: seq<string>

    // every connection made and every shutdown, ever
    ghost var history: seq<CacheEvent>
    ghost var matrices: set<NumatoRelayMatrix>

    /** The cache agrees with the table, and holds each matrix connected since the last shutdown exactly once. */
    ghost predicate Valid()
      reads this, matrices
    {
      && (forall m :: m in routers ==> Cached(m))
      && (forall m, n :: m in routers && n in routers && m != n ==> routers[m].relay != routers[n].relay)
      && order == ConnectedSince(history) && Distinct(order)
      && (forall m :: m in routers <==> m in order)
    }

    ghost predicate Cached(m: string)
      requires m in routers
      reads this, matrices
    {
      && m in matrixConfigs
      && routers[m].channelToRelay == OnMatrix(senseRouting, m)
      && routers[m].relay in matrices && routers[m].relay.Valid()
      && routers[m].relay.numChannels == matrixConfigs[m].numChannels
    }

    constructor (senseRouting: map<int, Entry>, matrixConfigs: map<string, MatrixConfig>)
      ensures Valid() && routers == map[] && matrices == {}
      ensures this.senseRouting == senseRouting && this.matrixConfigs == matrixConfigs
    {
      this.senseRouting, this.matrixConfigs := senseRouting, matrixConfigs;
      routers, order, history, matrices := map[], [], [], {};
    }

    /** What every operation leaves alone: matrices already cached keep their router, and all but one their state. */
    twostate predicate KeptExcept(name: string)
      reads this, matrices
    {
      && old(routers).Keys <= routers.Keys <= old(routers).Keys + {name}
      && (forall m :: m in old(routers) ==> routers[m] == old(routers)[m])
      && old(history) <= history
    }

    /** A matrix that was not cached could not be reached, and nothing else was done. */
    twostate predicate Missed(name: string)
      reads this
    {
      name !in old(routers) && name in matrixConfigs && history == old(history) + [Unreachable(name)]
    }

    /**
     `_router_for_matrix`: the cached router, or a new one that is cached only once its matrix is
     connected. A matrix without configuration, or one that cannot be reached, leaves the cache as it was.
     */
    method RouterForMatrix(name: string) returns (r: Result<NumatoSenseRouter, SenseError>)
      requires Valid()
      modifies this
      ensures Valid() && fresh(matrices - old(matrices)) && old(matrices) <= matrices && KeptExcept(name)
      ensures name in old(routers) ==> r.Ok? && unchanged(this)
      ensures r.Ok? ==> name in routers && r.value == routers[name]
      ensures r == Err(Configuration) <==> name !in old(routers) && name !in matrixConfigs
      ensures r == Err(Configuration) ==> unchanged(this)
      ensures r == Err(ConnectFailed) <==> Missed(name)
      ensures r.Err? ==> !r.error.Relay? && routers == old(routers) && matrices == old(matrices)
    {
      if name in routers {
        return Ok(routers[name]);
      }
      if name !in matrixConfigs {
        return Err(Configuration);
      }
      var relay, _ := CreateAndConnect(matrixConfigs[name]);
      if relay == null {
        history := history + [Unreachable(name)];
        assert history[..|history| - 1] == old(history);
        return Err(ConnectFailed);
      }
      var router := new NumatoSenseRouter(relay, OnMatrix(senseRouting, name));
      Remember(name, router);
      return Ok(router);
    }

    /** Caches the router of a matrix that has just been connected. */
    method Remember(name: string, router: NumatoSenseRouter)
      requires Valid() && name !in routers && name in matrixConfigs && router.relay !in matrices && router.relay.Valid()
      requires router.channelToRelay == OnMatrix(senseRouting, name) && router.relay.numChannels == matrixConfigs[name].numChannels
      modifies this
      ensures Valid() && matrices == old(matrices) + {router.relay}
      ensures routers == old(routers)[name := router] && history == old(history) + [Connected(name)]
    {
      routers, order := routers[name := router], order + [name];
      history, matrices := history + [Connected(name)], matrices + {router.relay};
      assert history[..|history| - 1] == old(history);
    }

    /** `_router_for_channel`: the router of the matrix that the table names, which knows the channel. */
    method RouterForChannel(channel: int) returns (r: Result<NumatoSenseRouter, SenseError>)
      requires Valid()
      modifies this
      ensures Valid() && fresh(matrices - old(matrices)) && old(matrices) <= matrices && old(history) <= history
      ensures r == Err(Configuration) <==> !Routed(channel)
      ensures r == Err(Configuration) ==> unchanged(this)
      ensures r == Err(ConnectFailed) <==> channel in senseRouting && Missed(senseRouting[channel].matrix)
      ensures r.Err? ==> !r.error.Relay? && routers == old(routers) && matrices == old(matrices)
      ensures channel in senseRouting ==> KeptExcept(senseRouting[channel].matrix)
      ensures r.Ok? ==>
                && KeptExcept(senseRouting[channel].matrix)
                && senseRouting[channel].matrix in routers && r.value == routers[senseRouting[channel].matrix]
                && channel in r.value.channelToRelay && r.value.channelToRelay[channel] == senseRouting[channel].relay
    {
      if channel !in senseRouting {
        return Err(Configuration);
      }
      r := RouterForMatrix(senseRouting[channel].matrix);
    }

    /** The table places the channel on a matrix that has a configuration. */
    predicate Routed(channel: int) {
      channel in senseRouting && senseRouting[channel].matrix in matrixConfigs
    }

    /** The relays energised on the matrix that the table names for a channel. */
    ghost function Energised(channel: int): set<nat>
      requires channel in senseRouting && senseRouting[channel].matrix in routers
      reads this, matrices, set m | m in routers :: routers[m].relay
    {
      routers[senseRouting[channel].matrix].relay.bank
    }

    /** How the last `open` or `close` of the channel's matrix came back. */
    ghost predicate LastReturned(channel: int, raised: Option<Failure>)
      requires channel in senseRouting
      reads this, matrices, set m | m in routers :: routers[m].relay
    {
      var name := senseRouting[channel].matrix;
      name in routers && routers[name].relay.returned != []
      && routers[name].relay.returned[|routers[name].relay.returned| - 1] == raised
    }

    /** Operating one cached matrix keeps the cache as it is. */
    twostate lemma OneOperated(name: string)
      requires old(Valid()) && unchanged(this) && name in routers && routers[name].relay.Valid()
      requires forall relay :: relay in matrices && relay != routers[name].relay ==> unchanged(relay)
      ensures Valid()
      ensures forall m :: m in routers && m != name ==> unchanged(routers[m].relay)
    {
      forall m | m in routers ensures Cached(m) && (m != name ==> unchanged(routers[m].relay)) {
        assert old(Cached(m));
      }
    }

    /** `connect`: through the cache, exactly the relay that the table names is energised. */
    method Connect(channel: int) returns (r: Result<(), SenseError>)
      requires Valid()
      modifies this, matrices
      ensures Valid() && fresh(matrices - old(matrices)) && old(matrices) <= matrices && old(history) <= history
      ensures r == Err(Configuration) <==> !Routed(channel)
      ensures r.Ok? ==> senseRouting[channel].matrix in routers && Energised(channel) == {senseRouting[channel].relay - 1}
      ensures r == Err(Configuration) ==> unchanged(this)
      ensures r == Err(ConnectFailed) <==> channel in senseRouting && Missed(senseRouting[channel].matrix)
      ensures r == Err(Configuration) || r == Err(ConnectFailed) ==> routers == old(routers) && matrices == old(matrices) && unchanged(matrices)
      ensures r.Ok? || r.error.Relay? ==> channel in senseRouting && LastReturned(channel, Raised(r))
      ensures channel in senseRouting ==> KeptExcept(senseRouting[channel].matrix)
      ensures channel in senseRouting ==> OthersUntouched(senseRouting[channel].matrix)
    {
      var router := RouterForChannel(channel);
      if router.Err? {
        return Err(router.error);
      }
      label found:
      r := router.value.Connect(channel);
      OneOperated@found(senseRouting[channel].matrix);
    }

    /** `disconnect`: through the cache, the matrix that the table names is empty. */
    method Disconnect(channel: int) returns (r: Result<(), SenseError>)
      requires Valid()
      modifies this, matrices
      ensures Valid() && fresh(matrices - old(matrices)) && old(matrices) <= matrices && old(history) <= history
      ensures r == Err(Configuration) <==> !Routed(channel)
      ensures r.Ok? ==> senseRouting[channel].matrix in routers && Energised(channel) == {}
      ensures r == Err(Configuration) ==> unchanged(this)
      ensures r == Err(ConnectFailed) <==> channel in senseRouting && Missed(senseRouting[channel].matrix)
      ensures r == Err(Configuration) || r == Err(ConnectFailed) ==> routers == old(routers) && matrices == old(matrices) && unchanged(matrices)
      ensures r.Ok? || r.error.Relay? ==> channel in senseRouting && LastReturned(channel, Raised(r))
      ensures channel in senseRouting ==> KeptExcept(senseRouting[channel].matrix)
      ensures channel in senseRouting ==> OthersUntouched(senseRouting[channel].matrix)
    {
      var router := RouterForChannel(channel);
      if router.Err? {
        return Err(router.error);
      }
      label found:
      r := router.value.Disconnect(channel);
      OneOperated@found(senseRouting[channel].matrix);
    }

    /** No matrix but `name` was operated. */
    twostate predicate OthersUntouched(name: string)
      reads this, matrices, set m | m in routers :: routers[m].relay
    {
      forall m :: m in old(routers) && m != name ==> m in routers && routers[m] == old(routers)[m] && unchanged(routers[m].relay)
    }

    /** `shutdown`: every cached matrix is disconnected and the cache is empty. */
    method Shutdown()
      requires Valid()
      modifies this, matrices
      ensures Valid() && routers == map[] && history == old(history) + [ShutDown] && matrices == old(matrices)
      ensures forall m :: m in old(routers) ==> !old(routers)[m].relay.connected && !old(routers)[m].relay.sockOpen
      ensures forall m :: m in old(routers) ==> old(routers)[m].relay.bank == old(routers[m].relay.bank)
    {
      for k := 0 to |order|
        invariant Valid() && unchanged(this)
        invariant forall j :: 0 <= j < k ==> !routers[order[j]].relay.connected && !routers[order[j]].relay.sockOpen
        invariant forall m :: m in routers ==> routers[m].relay.bank == old(routers[m].relay.bank)
      {
        label before:
        routers[order[k]].relay.Disconnect();
        OneOperated@before(order[k]);
      }
      routers, order, history := map[], [], history + [ShutDown];
    }

    /**
     `read_battery_voltage_via_sense`: without a channel a plain DMM read that touches no matrix.
     With one, the DMM is read between the connect and the disconnect, so that a voltage returned is
     the one at the terminals while exactly the channel's relay is energised; and once the connect
     has returned, every exit but a failing disconnect, a failing DMM included, leaves the matrix
     empty. Each failure is raised exactly when it occurred, a failing disconnect masking the DMM's.
     */
    method ReadBatteryVoltageViaSense(channel: Option<int>, terminals: set<nat> -> Option<real>)
      returns (r: Result<real, ReadError>, ghost sensed: Option<set<nat>>)
      requires Valid()
      modifies this, matrices
      ensures Valid() && fresh(matrices - old(matrices)) && old(matrices) <= matrices && old(history) <= history
      ensures channel.None? ==>
                && unchanged(this) && unchanged(matrices) && sensed == Some({})
                && r == match terminals({}) case Some(v) => Ok(v) case None => Err(DmmFailed)
      ensures channel.Some? ==> SensedBy(channel.value, terminals, r, sensed)
    {
      if channel.None? {
        r := MeasureDcVoltage(terminals, {});
        return r, Some({});
      }
      r, sensed := SenseThrough(channel.value, terminals);
    }

    /**
     A sense read and what came of it: nothing was read exactly if the connect raised, and otherwise
     the DMM was read over exactly the channel's relay and the disconnect attempted.
     */
    twostate predicate SensedBy(channel: int, terminals: set<nat> -> Option<real>,
                                new r: Result<real, ReadError>, new sensed: Option<set<nat>>)
      reads this, matrices, set m | m in routers :: routers[m].relay
    {
      && (sensed.None? <==> r.Err? && r.error.NotConnected?)
      && (r == Err(NotConnected(Configuration)) <==> !Routed(channel))
      && (r == Err(NotConnected(ConnectFailed)) ==> channel in senseRouting && Missed(senseRouting[channel].matrix))
      && (sensed.Some? ==>
            && Routed(channel) && senseRouting[channel].matrix in routers
            && sensed == Some({senseRouting[channel].relay - 1})
            && (r.Ok? || r.error == DmmFailed ==>
                  && Energised(channel) == {} && LastReturned(channel, None)
                  && r == match terminals(sensed.value) case Some(v) => Ok(v) case None => Err(DmmFailed))
            && (r.Err? && r.error.NotDisconnected? ==> r.error.e.Relay? && LastReturned(channel, Some(r.error.e.failure))))
      && (r.Err? && r.error.NotConnected? && r.error.e.Relay? ==>
            channel in senseRouting && LastReturned(channel, Some(r.error.e.failure)))
    }

    /** The part for a configured channel: connect, read, and disconnect in any case. */
    method SenseThrough(channel: int, terminals: set<nat> -> Option<real>)
      returns (r: Result<real, ReadError>, ghost sensed: Option<set<nat>>)
      requires Valid()
      modifies this, matrices
      ensures Valid() && fresh(matrices - old(matrices)) && old(matrices) <= matrices && old(history) <= history
      ensures SensedBy(channel, terminals, r, sensed)
    {
      sensed := None;
      var connected := Connect(channel);
      if connected.Err? {
        return Err(NotConnected(connected.error)), sensed;
      }
      var energised := routers[senseRouting[channel].matrix].relay.bank;
      var reading := MeasureDcVoltage(terminals, energised);
      sensed := Some(energised);
      var disconnected := Disconnect(channel);
      if disconnected.Err? {
        return Err(NotDisconnected(disconnected.error)), sensed;
      }
      return reading, sensed;
    }

    /** Any sequence of connects, disconnects, sense reads and shutdowns, however each ends, keeps the cache in agreement with the table. */
    method Session(steps: seq<Step>)
      requires Valid()
      modifies this, matrices
      ensures Valid() && old(history) <= history
    {
      for k := 0 to |steps|
        invariant Valid() && fresh(matrices - old(matrices)) && old(history) <= history
      {
        match steps[k]
        case ConnectStep(c) => var _ := Connect(c);
        case DisconnectStep(c) => var _ := Disconnect(c);
        case ShutdownStep => Shutdown();
        case SenseStep(c, terminals) => var _, _ := ReadBatteryVoltageViaSense(c, terminals);
      }
    }
  }

  datatype ReadError = DmmFailed | NotConnected(e: SenseError) | NotDisconnected(e: SenseError)
}
