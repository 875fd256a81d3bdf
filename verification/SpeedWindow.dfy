/** Transfer statistics (src/download.rs, lines 199-269). The queue of recent deliveries is
    pruned while it is read; the answers are those of the full history. */
module SpeedWindow {
  import opened Config

  datatype RecentDownloadedEntry = RecentDownloadedEntry(peerId: nat, size: nat, time: nat)

  predicate InWindow(e: RecentDownloadedEntry, now: nat) {
    now - e.time <= DOWNLOAD_SPEED_EVALUATION_INTERVAL
  }

  predicate Sorted(history: seq<RecentDownloadedEntry>) {
    forall i, j :: 0 <= i < j < |history| ==> history[i].time <= history[j].time
  }

  /** The bytes delivered within the window that ends at `now`. */
  function WindowSum(history: seq<RecentDownloadedEntry>, now: nat): nat {
    if history == [] then 0
    else (if InWindow(history[0], now) then history[0].size else 0) + WindowSum(history[1..], now)
  }

  /** One more entry adds its size to the answers of the next ten seconds, and to no later one. */
  lemma {:induction false} EntryCounts(history: seq<RecentDownloadedEntry>, e: RecentDownloadedEntry, now: nat)
    ensures WindowSum([], now) == 0
    ensures WindowSum(history + [e], now) == WindowSum(history, now) + if now <= e.time + 10 * SECOND then e.size else 0
  {
    if history == [] {
      assert history + [e] == [e];
    } else {
      assert (history + [e])[1..] == history[1..] + [e];
      EntryCounts(history[1..], e, now);
    }
  }

  function Total(history: seq<RecentDownloadedEntry>): nat {
    if history == [] then 0 else Total(history[..|history| - 1]) + history[|history| - 1].size
  }

  /** Entries that left the window do not count, now or at any later time. */
  lemma {:induction false} ExpiredPrefix(history: seq<RecentDownloadedEntry>, k: nat, earlier: nat, now: nat)
    requires k <= |history| && earlier <= now
    requires forall i :: 0 <= i < k ==> !InWindow(history[i], earlier)
    ensures WindowSum(history, now) == WindowSum(history[k..], now)
  {
    if k == 0 {
      assert history[0..] == history;
    } else {
      ExpiredPrefix(history[1..], k - 1, earlier, now);
      assert history[1..][k - 1..] == history[k..];
    }
  }

  /** The queue after the entries too old at `now` were popped from its front. */
  function Prune(queue: seq<RecentDownloadedEntry>, now: nat): seq<RecentDownloadedEntry> {
    if queue != [] && !InWindow(queue[0], now) then Prune(queue[1..], now) else queue
  }

  /** Pruning at one time never changes an answer given at that time or later. */
  lemma {:induction false} PruneKeepsAnswers(queue: seq<RecentDownloadedEntry>, now: nat, later: nat)
    requires now <= later
    ensures WindowSum(Prune(queue, now), later) == WindowSum(queue, later)
  {
    if queue != [] && !InWindow(queue[0], now) {
      PruneKeepsAnswers(queue[1..], now, later);
    }
  }

  lemma RestInWindow(history: seq<RecentDownloadedEntry>, k: nat, now: nat)
    requires Sorted(history) && k <= |history| && (k < |history| ==> InWindow(history[k], now))
    ensures forall e :: e in history[k..] ==> InWindow(e, now)
  {
  }

  method SumSizes(queue: seq<RecentDownloadedEntry>, ghost now: nat) returns (total: nat)
    requires forall e :: e in queue ==> InWindow(e, now)
    ensures total == WindowSum(queue, now)
  {
    total := 0;
    for i := 0 to |queue|
      invariant total + WindowSum(queue[i..], now) == WindowSum(queue, now)
    {
      assert queue[i..][1..] == queue[i + 1..];
      total := total + queue[i].size;
    }
  }

  class Stats {
    var downloaded: nat
    var uploaded: nat
    var recentDownloaded: seq<RecentDownloadedEntry>

    /** Everything ever added, the number of entries pruned from its front, the
        latest time seen, and the total this object started from. */
    ghost var history: seq<RecentDownloadedEntry>
    ghost var pruned: nat
    ghost var clock: nat
    ghost var initial: nat

    ghost predicate Valid()
      reads this
    {
      pruned <= |history| && recentDownloaded == history[pruned..] && Sorted(history) &&
      (forall i :: 0 <= i < |history| ==> history[i].time <= clock) &&
      (forall i :: 0 <= i < pruned ==> !InWindow(history[i], clock)) &&
      downloaded == initial + Total(history)
    }

    /** New statistics, or those `reload_config` restores. */
    constructor (downloaded: nat, uploaded: nat)
      ensures Valid() && history == [] && initial == downloaded && clock == 0 && this.uploaded == uploaded
    {
      this.downloaded, this.uploaded, this.recentDownloaded := downloaded, uploaded, [];
      this.history, this.pruned, this.clock, this.initial := [], 0, 0, downloaded;
    }

    method AddDownloaded(delta: nat, peerId: nat, now: nat)
      requires Valid() && clock <= now
      modifies this
      ensures Valid() && clock == now && initial == old(initial) && uploaded == old(uploaded)
      ensures history == old(history) + [RecentDownloadedEntry(peerId, delta, now)]
    {
      downloaded := downloaded + delta;
      recentDownloaded := recentDownloaded + [RecentDownloadedEntry(peerId, delta, now)];
      history := history + [RecentDownloadedEntry(peerId, delta, now)];
      assert history[..|history| - 1] == old(history);
      clock := now;
    }

    method AddUploaded(delta: nat)
      requires Valid()
      modifies this`uploaded
      ensures Valid() && uploaded == old(uploaded) + delta
    {
      uploaded := uploaded + delta;
    }

    /** The speed is that of the full history, whatever was pruned before. */
    method GetDownloadSpeed(now: nat) returns (speed: nat)
      requires Valid() && clock <= now
      modifies this`recentDownloaded, this`pruned, this`clock
      ensures Valid() && clock == now && history == old(history)
      ensures recentDownloaded == Prune(old(recentDownloaded), now)
      ensures speed == WindowSum(history, now) / (DOWNLOAD_SPEED_EVALUATION_INTERVAL / SECOND)
    {
      hide Total, Sorted, WindowSum;
      while recentDownloaded != [] && now - recentDownloaded[0].time > DOWNLOAD_SPEED_EVALUATION_INTERVAL
        invariant pruned <= |history| && recentDownloaded == history[pruned..]
        invariant history == old(history) && clock == old(clock)
        invariant downloaded == old(downloaded) && initial == old(initial)
        invariant Prune(recentDownloaded, now) == Prune(old(recentDownloaded), now)
        invariant forall i :: 0 <= i < pruned ==> !InWindow(history[i], now)
        decreases |recentDownloaded|
      {
        recentDownloaded := recentDownloaded[1..];
        pruned := pruned + 1;
      }
      ExpiredPrefix(history, pruned, now, now);
      RestInWindow(history, pruned, now);
      var total := SumSizes(recentDownloaded, now);
      clock := now;
      speed := total / (DOWNLOAD_SPEED_EVALUATION_INTERVAL / SECOND);
    }
  }
}
