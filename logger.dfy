/**
 The logger (`LogEaseLogger`): a registry of destinations in which two
 destinations are the same exactly when their identifiers agree, and the
 fan-out that hands one log call to every registered destination whose level
 filter accepts it.

 The registry is a map from identifier to destination, which is what a Swift
 `Set` under identifier-based `==` and `hash` amounts to. The dispatch queues
 are left out: registry updates happen one at a time and `custom` delivers
 sequentially, recording each `send` as a `Delivery`.
 */
module Loggers {
  import opened Levels
  import opened BaseDestinations

  // ---------------------------------------------------------------------------
  // The registry

  /** Every entry is filed under its own identifier. */
  predicate Keyed(reg: map<string, Destination>) {
    forall id :: id in reg ==> reg[id].identifier == id
  }

  /** `addDestination`: adds `d` unless a destination with its identifier is
      already registered, in which case the registry is left as it is. */
  function Added(reg: map<string, Destination>, d: Destination): (r: map<string, Destination>)
    ensures r.Keys == reg.Keys + {d.identifier}
    ensures forall id :: id in reg ==> r[id] == reg[id]
    ensures d.identifier !in reg ==> r[d.identifier] == d
    ensures |r| == if d.identifier in reg then |reg| else |reg| + 1
  {
    if d.identifier in reg then reg else reg[d.identifier := d]
  }

  /** `removeDestination`: drops the destination filed under `id`, if any;
      every other entry stays. */
  function Removed(reg: map<string, Destination>, id: string): (r: map<string, Destination>)
    ensures r.Keys == reg.Keys - {id}
    ensures forall k :: k in r ==> r[k] == reg[k]
    ensures |r| == if id in reg then |reg| - 1 else |reg|
  {
    reg - {id}
  }

  /** Adding and removing keep every entry under its own identifier. */
  lemma UpdatesStayKeyed(reg: map<string, Destination>, d: Destination, id: string)
    requires Keyed(reg)
    ensures Keyed(Added(reg, d))
    ensures Keyed(Removed(reg, id))
  {
  }

  /** Adding a destination whose identifier is absent and then removing it
      gives back the registry as it was. */
  lemma AddThenRemoveRestores(reg: map<string, Destination>, d: Destination)
    requires d.identifier !in reg
    ensures Removed(Added(reg, d), d.identifier) == reg
  {
    var r := Removed(Added(reg, d), d.identifier);
    assert r.Keys == reg.Keys;
  }

  /** Adding the same destination twice is adding it once; so is adding
      another destination with the same identifier afterwards. */
  lemma AddIsIdempotent(reg: map<string, Destination>, d: Destination, e: Destination)
    requires e.identifier == d.identifier
    ensures Added(Added(reg, d), e) == Added(reg, d)
  {
  }

  /** Removing is idempotent too, and removing an absent identifier changes nothing. */
  lemma RemoveIsIdempotent(reg: map<string, Destination>, id: string)
    ensures Removed(Removed(reg, id), id) == Removed(reg, id)
    ensures id !in reg ==> Removed(reg, id) == reg
  {
  }

  // ---------------------------------------------------------------------------
  // Fan-out

  /** One `send` performed by `custom`: the destination it went to, the call
      it carried, and whether it was queued asynchronously (`asynchronously`)
      or run synchronously. */
  datatype Delivery = Delivery(
    destination: string,
    level: Level,
    msg: string,
    file: string,
    signature: string,
    line: int,
    queued: bool)

  /** The delivery passes on the call's level, message and location. */
  predicate Carries(x: Delivery, level: Level, msg: string, file: string, signature: string, line: int) {
    x.level == level && x.msg == msg && x.file == file && x.signature == signature && x.line == line
  }

  /** The destinations a sequence of deliveries went to. */
  function Recipients(sent: seq<Delivery>): set<string> {
    if |sent| == 0 then {} else Recipients(sent[..|sent| - 1]) + {sent[|sent| - 1].destination}
  }

  lemma RecipientsAppend(sent: seq<Delivery>, x: Delivery)
    ensures Recipients(sent + [x]) == Recipients(sent) + {x.destination}
  {
    assert (sent + [x])[..|sent|] == sent;
  }

  /** The registered destinations whose level filter accepts `level`. */
  function Accepting(reg: map<string, Destination>, level: Level): set<string>
    reads reg.Values
  {
    set id | id in reg && reg[id].ShouldLevelBeLogged(level)
  }

  /** No destination accepts exactly when the accepting set is empty. */
  lemma NoneAccepting(reg: map<string, Destination>, level: Level)
    ensures |Accepting(reg, level)| == 0 <==> forall id :: id in reg ==> !reg[id].ShouldLevelBeLogged(level)
  {
    if |Accepting(reg, level)| == 0 {
      forall id | id in reg
        ensures !reg[id].ShouldLevelBeLogged(level)
      {
        assert id !in Accepting(reg, level);
      }
    } else {
      var id :| id in Accepting(reg, level);
    }
  }

  /** What `custom`'s loop has done after visiting every destination of
      `snapshot` outside `remaining`: it has delivered the call once to each
      accepting one, and evaluated the message once per delivery. */
  ghost predicate Progress(snapshot: map<string, Destination>, level: Level, msg: string,
                           file: string, signature: string, line: int,
                           remaining: set<string>, accepted: set<string>,
                           sent: seq<Delivery>, evaluations: nat)
    reads snapshot.Values
  {
    remaining <= snapshot.Keys &&
    (forall id :: id in accepted <==>
      id in snapshot && id !in remaining && snapshot[id].ShouldLevelBeLogged(level)) &&
    Recipients(sent) == accepted &&
    |sent| == |accepted| == evaluations &&
    forall x :: x in sent ==>
      x.destination in snapshot && Carries(x, level, msg, file, signature, line) &&
      x.queued == snapshot[x.destination].asynchronously
  }

  /** Visiting an accepting destination keeps `Progress` with one more
      delivery and one more evaluation. */
  lemma ProgressDeliver(snapshot: map<string, Destination>, level: Level, msg: string,
                        file: string, signature: string, line: int,
                        remaining: set<string>, accepted: set<string>,
                        sent: seq<Delivery>, evaluations: nat, id: string)
    requires Progress(snapshot, level, msg, file, signature, line, remaining, accepted, sent, evaluations)
    requires id in remaining && snapshot[id].ShouldLevelBeLogged(level)
    ensures Progress(snapshot, level, msg, file, signature, line, remaining - {id}, accepted + {id},
                     sent + [Delivery(id, level, msg, file, signature, line, snapshot[id].asynchronously)],
                     evaluations + 1)
  {
    var delivery := Delivery(id, level, msg, file, signature, line, snapshot[id].asynchronously);
    RecipientsAppend(sent, delivery);
    assert id !in accepted;
    assert |accepted + {id}| == |accepted| + 1;
    assert forall x :: x in sent + [delivery] ==> x in sent || x == delivery;
  }

  /** Visiting a destination that does not accept the level keeps `Progress`
      unchanged but for `remaining`. */
  lemma ProgressSkip(snapshot: map<string, Destination>, level: Level, msg: string,
                     file: string, signature: string, line: int,
                     remaining: set<string>, accepted: set<string>,
                     sent: seq<Delivery>, evaluations: nat, id: string)
    requires Progress(snapshot, level, msg, file, signature, line, remaining, accepted, sent, evaluations)
    requires id in remaining && !snapshot[id].ShouldLevelBeLogged(level)
    ensures Progress(snapshot, level, msg, file, signature, line, remaining - {id}, accepted, sent, evaluations)
  {
  }

  /** Once every destination is visited, the deliveries went to exactly the
      accepting ones. */
  lemma ProgressDone(snapshot: map<string, Destination>, level: Level, msg: string,
                     file: string, signature: string, line: int,
                     accepted: set<string>, sent: seq<Delivery>, evaluations: nat)
    requires Progress(snapshot, level, msg, file, signature, line, {}, accepted, sent, evaluations)
    ensures Recipients(sent) == Accepting(snapshot, level)
    ensures |sent| == |Recipients(sent)| == evaluations
  {
    assert accepted == Accepting(snapshot, level);
  }

  /** The logger, holding the registry of active destinations. */
  class Logger {
    var destinations: map<string, Destination>

    /** `init(destinations:)`: starts with the given registry (empty by
        default); the queue parameter is not modelled. */
    constructor (destinations: map<string, Destination>)
      requires Keyed(destinations)
      ensures this.destinations == destinations
      ensures Keyed(this.destinations)
    {
      this.destinations := destinations;
    }

    method AddDestination(destination: Destination)
      modifies this
      ensures destinations == Added(old(destinations), destination)
    {
      if destination.identifier in destinations {
        return;
      }
      destinations := destinations[destination.identifier := destination];
    }

    method RemoveDestination(destination: Destination)
      modifies this
      ensures destinations == Removed(old(destinations), destination.identifier)
    {
      if destination.identifier !in destinations {
        return;
      }
      destinations := destinations - {destination.identifier};
    }

    method RemoveAllDestinations()
      modifies this
      ensures destinations == map[]
    {
      destinations := map[];
    }

    /** `custom`: walks a snapshot of the registry in an unspecified order and,
        for each destination that accepts `level`, renders the message once
        and sends it, queued or not as the destination asks. `evaluations`
        counts the evaluations of the message closure. */
    method Custom(level: Level, message: string, file: string, signature: string, line: int)
      returns (sent: seq<Delivery>, evaluations: nat)
      ensures Recipients(sent) == Accepting(destinations, level)
      ensures |sent| == |Recipients(sent)|
      ensures forall x :: x in sent ==>
        x.destination in destinations && Carries(x, level, message, file, signature, line) &&
        x.queued == destinations[x.destination].asynchronously
      ensures evaluations == |Accepting(destinations, level)|
      ensures evaluations == 0 <==>
        forall id :: id in destinations ==> !destinations[id].ShouldLevelBeLogged(level)
    {
      var snapshot := destinations;
      var remaining := snapshot.Keys;
      ghost var accepted: set<string> := {};
      sent, evaluations := [], 0;
      while remaining != {}
        invariant Progress(snapshot, level, message, file, signature, line, remaining, accepted, sent, evaluations)
        decreases remaining
      {
        var id :| id in remaining;
        var dest := snapshot[id];
        if dest.ShouldLevelBeLogged(level) {
          ProgressDeliver(snapshot, level, message, file, signature, line, remaining, accepted, sent, evaluations, id);
          var msgStr := message;
          evaluations := evaluations + 1;
          sent := sent + [Delivery(id, level, msgStr, file, signature, line, dest.asynchronously)];
          accepted := accepted + {id};
        } else {
          ProgressSkip(snapshot, level, message, file, signature, line, remaining, accepted, sent, evaluations, id);
        }
        remaining := remaining - {id};
      }
      ProgressDone(snapshot, level, message, file, signature, line, accepted, sent, evaluations);
      NoneAccepting(destinations, level);
    }
  }
}
