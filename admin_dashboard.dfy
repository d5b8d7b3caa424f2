/** The admin Dashboard: four counters computed once from the three lists
    the API returns. The three requests are one step here; their
    concurrency is not part of this model. */
module AdminDashboard {
  import opened Js
  import opened AdminMessages

  datatype Stats = Stats(projects: nat, skills: nat, messages: nat, unreadMessages: nat)

  /** The counters before anything has been fetched. */
  const InitialStats: Stats := Stats(0, 0, 0, 0)

  /** The counters `setStats` receives from the fetched lists. */
  function ComputeStats<P, S>(projects: seq<P>, skills: seq<S>, messages: seq<Message>): (s: Stats)
    ensures s.projects == |projects| && s.skills == |skills| && s.messages == |messages|
    ensures s.unreadMessages <= s.messages
  {
    Stats(|projects|, |skills|, |messages|, UnreadCount(messages))
  }

  /** The dashboard's unread counter agrees with the Messages page's: it
      counts the messages not marked read, and all of them when none is. */
  lemma DashboardCountsUnread<P, S>(projects: seq<P>, skills: seq<S>, messages: seq<Message>)
    ensures ComputeStats(projects, skills, messages).unreadMessages + |ReadOnes(messages)| == |messages|
    ensures (forall i :: 0 <= i < |messages| ==> !IsRead(messages[i])) ==>
      ComputeStats(projects, skills, messages).unreadMessages == |messages|
  {
    UnreadCountsUnmarked(messages);
    if forall i :: 0 <= i < |messages| ==> !IsRead(messages[i]) {
      NoneRead(messages);
    }
  }

  lemma {:induction false} NoneRead(ms: seq<Message>)
    requires forall i :: 0 <= i < |ms| ==> !IsRead(ms[i])
    ensures ReadOnes(ms) == []
  {
    if ms != [] {
      assert forall i :: 0 <= i < |ms[1..]| ==> ms[1..][i] == ms[i + 1];
      NoneRead(ms[1..]);
    }
  }

  /** The dashboard's `stats` and `loading` state. */
  class Dashboard {
    var stats: Stats
    var loading: bool

    constructor ()
      ensures stats == InitialStats && loading
    {
      stats := InitialStats;
      loading := true;
    }

    /** `fetchStats`: new counters when all three requests succeed, the old
        ones otherwise; the spinner stops either way. */
    method Fetched<P, S>(result: Option<(seq<P>, seq<S>, seq<Message>)>)
      modifies this
      ensures stats == if result.Some? then ComputeStats(result.value.0, result.value.1, result.value.2) else old(stats)
      ensures !loading
    {
      if result.Some? {
        var (projects, skills, messages) := result.value;
        stats := Stats(|projects|, |skills|, |messages|, |UnreadOnes(messages)|);
      }
      loading := false;
    }
  }
}
