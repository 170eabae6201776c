/** The transactional outbox: jobs and the rows they report correspond. */
module Outbox {
  import opened Basics
  import opened Schema
  import opened Changes
  import opened Invariant
  import opened System
  import opened Theorems

  ghost function JobsAbout(jobs: map<string, Job>, topic: Topic): set<string> {
    set k | k in jobs && TopicOf(jobs[k].payload) == topic
  }

  /** At every moment of every run there is one started job per trip, one completed job per completed
      trip, one submitted job per submitted inspection, one job per fuel record, and no other job of
      these four kinds: work that was rolled back left none, and the worker removes none. */
  lemma OneJobPerEvent(s: Sys, cfg: Config, topic: Topic)
    requires Reached(s, cfg)
    ensures |JobsAbout(s.db.jobs, topic)| == (if Called(s.db.trips, s.db.heads, s.db.fuel, topic) then 1 else 0)
  {
    hide Reached;
    ReachedIsFine(s, cfg);
    hide PendingOk, VehiclesOk, DriversOk, ShiftsOk, TripsOk, TripsUnique, Covered, OrdersOk, OdometerOk;
    hide KeysOk, InspectionsOk, BookingOk, CalendarOk;
    AtMostOne(JobsAbout(s.db.jobs, topic));
    if HasJob(s.db.jobs, topic) {
      var k :| k in s.db.jobs && TopicOf(s.db.jobs[k].payload) == topic;
      assert k in JobsAbout(s.db.jobs, topic);
    }
  }

  /** What a completion or submission job carries is still what is stored. */
  lemma PayloadsAreCurrent(s: Sys, cfg: Config, jobId: string)
    requires Reached(s, cfg) && jobId in s.db.jobs
    ensures match s.db.jobs[jobId].payload
            case TripCompleted(tr) => tr.id in s.db.trips && s.db.trips[tr.id] == tr
            case InspectionSubmitted(i) => i.head.id in s.db.heads && s.db.heads[i.head.id] == i.head
            case TripStarted(tr) => tr.id in s.db.trips
            case FuelRecorded(r) => r.id in s.db.fuel
  {
    hide Reached;
    ReachedIsFine(s, cfg);
    hide PendingOk, Inv;
    PayloadsInStore(s.db, cfg, jobId);
  }

  lemma PayloadsInStore(t: Tables, cfg: Config, jobId: string)
    requires Inv(t, cfg) && jobId in t.jobs
    ensures match t.jobs[jobId].payload
            case TripCompleted(tr) => tr.id in t.trips && t.trips[tr.id] == tr
            case InspectionSubmitted(i) => i.head.id in t.heads && t.heads[i.head.id] == i.head
            case TripStarted(tr) => tr.id in t.trips
            case FuelRecorded(r) => r.id in t.fuel
  {
    hide VehiclesOk, DriversOk, ShiftsOk, TripsOk, TripsUnique, Covered, OrdersOk, OdometerOk, KeysOk;
    hide InspectionsOk, BookingOk, CalendarOk;
    JobHasItsTopic(t.jobs, jobId);
    assert Called(t.trips, t.heads, t.fuel, TopicOf(t.jobs[jobId].payload));
  }
}
