/** The trip stream of the copier is the output of a join: what the joins promise is what deduplication counts on. */
module JoinedTrips {
  import opened EntityCopier
  import opened CopyPasses
  import opened Deduplication
  import TripJoinSpec
  import TripConservation
  import GenericJoin

  /** How rows are read as entities. */
  datatype Reading = Reading(trip: TripJoinSpec.Trip -> Entity, stopTime: TripJoinSpec.StopTime -> Entity)

  /** A trip has its trip_id, and a stop_time refers to the trip of its own. */
  ghost predicate Reads(r: Reading) {
    && (forall t :: r.trip(t).file == "trips.txt" && r.trip(t).id == t.tripId)
    && forall st :: r.stopTime(st).refs != [] && r.stopTime(st).refs[0] == Ref("trips.txt", st.tripId)
  }

  function ItemOf(r: Reading, x: TripJoinSpec.TripStopTimes): TripItem {
    TripItem(x.valid, r.trip(x.trip),
             seq(|x.stopTimes|, k requires 0 <= k < |x.stopTimes| => r.stopTime(x.stopTimes[k])))
  }

  function ItemsOf(r: Reading, out: seq<TripJoinSpec.TripStopTimes>): seq<TripItem> {
    seq(|out|, i requires 0 <= i < |out| => ItemOf(r, out[i]))
  }

  lemma StopTimeRead(r: Reading, x: TripJoinSpec.TripStopTimes, s: Entity) returns (st: TripJoinSpec.StopTime)
    requires Reads(r) && s in ItemOf(r, x).stopTimes
    ensures st in x.stopTimes && s.refs != [] && s.refs[0].id == st.tripId
  {
    var k :| 0 <= k < |x.stopTimes| && ItemOf(r, x).stopTimes[k] == s;
    st := x.stopTimes[k];
  }

  lemma OtherId(out: seq<TripJoinSpec.TripStopTimes>, i: nat, k: nat)
    requires TripConservation.KeepsApart(out) && i < |out| && k < |out| && i != k
    requires TripConservation.Timed(out[i]) && TripConservation.Timed(out[k])
    ensures out[i].trip.tripId != out[k].trip.tripId
  {
    var st := out[k].stopTimes[0];
    assert st in out[k].stopTimes;
    assert st.tripId == out[k].trip.tripId;
    assert st.tripId != out[i].trip.tripId;
  }

  /** Trips kept apart are trips with ids and stop_times of their own. */
  lemma ApartIsApart(r: Reading, out: seq<TripJoinSpec.TripStopTimes>)
    requires Reads(r) && TripConservation.KeepsApart(out)
    ensures TripFeed(ItemsOf(r, out)) && Apart(ItemsOf(r, out))
  {
    var items := ItemsOf(r, out);
    forall i | 0 <= i < |items| && HasTimes(items[i]) ensures OwnId(items, i) && OwnTimes(items, i) {
      forall k | 0 <= k < |items| && k != i && HasTimes(items[k]) ensures items[k].trip.id != items[i].trip.id {
        OtherId(out, i, k);
        assert items[i].trip == r.trip(out[i].trip) && items[k].trip == r.trip(out[k].trip);
      }
      forall k, s | 0 <= k < |items| && k != i && s in items[k].stopTimes ensures s !in items[i].stopTimes {
        var st := StopTimeRead(r, out[k], s);
        if s in items[i].stopTimes { var own := StopTimeRead(r, out[i], s); }
      }
    }
  }

  /** So are the trips of the reader's join, and of the generic join over groups of one trip_id each. */
  lemma JoinedTripsAreApart(r: Reading, cfg: TripJoinSpec.Config, feed: TripJoinSpec.Feed, ids: seq<string>)
    requires Reads(r) && TripJoinSpec.Sorts(cfg.sort)
    ensures var items := ItemsOf(r, TripJoinSpec.Join(cfg, feed, ids)); TripFeed(items) && Apart(items)
  {
    TripConservation.JoinKeepsTripsApart(cfg, feed, ids);
    ApartIsApart(r, TripJoinSpec.Join(cfg, feed, ids));
  }

  lemma GenericTripsAreApart(r: Reading, trips: seq<TripJoinSpec.Trip>, groups: seq<seq<TripJoinSpec.StopTime>>,
                             out: seq<TripJoinSpec.TripStopTimes>)
    requires Reads(r) && GenericJoin.Uniform(groups) && GenericJoin.PossibleOutput(trips, groups, out)
    ensures TripFeed(ItemsOf(r, out)) && Apart(ItemsOf(r, out))
  {
    var rest :| GenericJoin.Untaken(trips, groups, rest) && out == GenericJoin.Output(trips, groups, rest);
    GenericJoin.GenericKeepsTripsApart(trips, groups, rest);
    ApartIsApart(r, out);
  }
}
