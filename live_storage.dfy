/** The ground station's live view (ground_station/core/telemetry_realtime.py): each
    GUI tick drains the queue of decoded CAN frames, then keeps `live_data_storage`
    (a dictionary of equally long lists keyed by channel name, with the sample
    times under "Time") in step by appending one sample to every channel. Also the
    window the plot starts from and the RPM bar of the dashboard. The clock, the
    CAN thread that fills the queue, and all drawing are outside the model. */
module LiveStorage {
  import opened Wrappers

  /** The key of the sample times. */
  const TimeKey := "Time"

  type Frame = map<string, real>
  type Storage = map<string, seq<real>>

  // ---------------------------------------------------------------------------
  // Draining the queue

  /** The frames merged in arrival order: a later frame overrides an earlier one
      key by key (`dict.update`). */
  function MergeAll(frames: seq<Frame>): (m: Frame)
    ensures forall k | k in m :: exists i | 0 <= i < |frames| :: k in frames[i]
  {
    if frames == [] then map[]
    else MergeAll(frames[..|frames| - 1]) + frames[|frames| - 1]
  }

  /** Every key of every drained frame survives the merge, with the value of the
      last frame that carries it. */
  lemma {:induction false} MergeAllLastWins(frames: seq<Frame>, k: string, i: nat)
    requires i < |frames| && k in frames[i]
    requires forall j | i < j < |frames| :: k !in frames[j]
    ensures k in MergeAll(frames) && MergeAll(frames)[k] == frames[i][k]
  {
    var n := |frames| - 1;
    var prefix, last := frames[..n], frames[n];
    assert MergeAll(frames) == MergeAll(prefix) + last;
    if i < n {
      assert k !in last;
      assert forall j | i < j < n :: prefix[j] == frames[j];
      MergeAllLastWins(prefix, k, i);
      assert prefix[i] == frames[i];
    } else {
      assert last == frames[i];
    }
  }

  // ---------------------------------------------------------------------------
  // One channel

  /** The channel's history after one tick, where `timeLen` is the number of
      sample times before the tick and `v` the value drained for the channel: the
      history is front-padded with zeros up to `timeLen`, then the drained value
      is appended, or else the last value held, or else zero. */
  function Extended(h: seq<real>, timeLen: nat, v: Option<real>): (r: seq<real>)
    ensures |r| == (if |h| < timeLen then timeLen else |h|) + 1
    ensures r[..|h|] == h
    ensures forall i | |h| <= i < timeLen :: r[i] == 0.0
    ensures v.Some? ==> r[|r| - 1] == v.value
    ensures v.None? ==> r[|r| - 1] == if timeLen <= |h| && h != [] then h[|h| - 1] else 0.0
  {
    var padded := if |h| < timeLen then h + seq(timeLen - |h|, _ => 0.0) else h;
    var value := if v.Some? then v.value else if |padded| > 0 then padded[|padded| - 1] else 0.0;
    padded + [value]
  }

  // ---------------------------------------------------------------------------
  // The whole storage

  /** The sample times, empty when the key is missing. */
  function Times(s: Storage): seq<real> {
    if TimeKey in s then s[TimeKey] else []
  }

  function Lookup(m: Frame, k: string): Option<real> {
    if k in m then Some(m[k]) else None
  }

  function History(s: Storage, k: string): seq<real> {
    if k in s then s[k] else []
  }

  /** The channel names of a list, as a set. */
  function SetOf(names: seq<string>): (r: set<string>)
    ensures forall c :: c in r <==> c in names
  {
    set c | c in names
  }

  /** The channels a tick updates: those stored, those just drained and those
      the user has selected, never the time key. */
  function Channels(s: Storage, recent: Frame, selected: set<string>): (cs: set<string>)
    ensures TimeKey !in cs
    ensures forall c :: c in cs <==> c != TimeKey && (c in s || c in recent || c in selected)
  {
    (s.Keys + recent.Keys + selected) - {TimeKey}
  }

  /** The storage after a tick in which `recent` was drained at time `now`. */
  function Synced(s: Storage, recent: Frame, selected: set<string>, now: real): (r: Storage)
    ensures r.Keys == Channels(s, recent, selected) + {TimeKey}
    ensures r[TimeKey] == Times(s) + [now]
    ensures forall c | c in Channels(s, recent, selected) ::
      r[c] == Extended(History(s, c), |Times(s)|, Lookup(recent, c))
  {
    var n := |Times(s)|;
    map c | c in Channels(s, recent, selected) + {TimeKey} ::
      if c == TimeKey then Times(s) + [now]
      else Extended(History(s, c), n, Lookup(recent, c))
  }

  /** A storage with the right keys, times and channels is the synced one. */
  lemma SyncedFromParts(s: Storage, recent: Frame, selected: set<string>, now: real, st: Storage)
    requires st.Keys == s.Keys + {TimeKey} + Channels(s, recent, selected)
    requires st[TimeKey] == Times(s) + [now]
    requires forall c | c in Channels(s, recent, selected) ::
      st[c] == Extended(History(s, c), |Times(s)|, Lookup(recent, c))
    ensures st == Synced(s, recent, selected, now)
  {
    var goal := Synced(s, recent, selected, now);
    var cs := Channels(s, recent, selected);
    assert s.Keys <= cs + {TimeKey};
    assert st.Keys == goal.Keys;
    forall c | c in st
      ensures st[c] == goal[c]
    {
      if c != TimeKey {
        assert c in cs;
      }
    }
  }

  /** No channel is longer than the sample times. */
  predicate Bounded(s: Storage) {
    forall c | c in s :: |s[c]| <= |Times(s)|
  }

  /** The sample times are stored and every channel has exactly one value per
      sample time. */
  predicate Aligned(s: Storage) {
    TimeKey in s && forall c | c in s :: |s[c]| == |s[TimeKey]|
  }

  /** After a tick from storage whose channels are no longer than the sample
      times, one time was appended and every channel, old or new, is exactly as
      long as the sample times again; older samples are kept and new channels
      were front-padded with zeros. */
  lemma SyncedAligned(s: Storage, recent: Frame, selected: set<string>, now: real)
    requires Bounded(s)
    ensures var s' := Synced(s, recent, selected, now);
      && Aligned(s')
      && s'[TimeKey] == Times(s) + [now]
      && forall c | c in s' && c != TimeKey ::
           && s'[c][..|History(s, c)|] == History(s, c)
           && (c !in s ==> forall i | 0 <= i < |Times(s)| :: s'[c][i] == 0.0)
  {
    var s' := Synced(s, recent, selected, now);
    forall c | c in s' && c != TimeKey
      ensures |s'[c]| == |Times(s)| + 1
    {
      assert |History(s, c)| <= |Times(s)|;
    }
  }

  /** Each channel's new sample is the drained value when there is one, else the
      channel's last value when it was already up to date, else zero. */
  lemma SyncedSample(s: Storage, recent: Frame, selected: set<string>, now: real, c: string)
    requires c != TimeKey && (c in s || c in recent || c in selected)
    ensures var r := Synced(s, recent, selected, now)[c];
      && (c in recent ==> r[|r| - 1] == recent[c])
      && (c !in recent && c in s && s[c] != [] && |s[c]| >= |Times(s)| ==> r[|r| - 1] == s[c][|s[c]| - 1])
      && (c !in recent && (c !in s || |s[c]| < |Times(s)|) ==> r[|r| - 1] == 0.0)
  {
    assert c in Channels(s, recent, selected);
    var r := Synced(s, recent, selected, now)[c];
    var h, v := History(s, c), Lookup(recent, c);
    assert r == Extended(h, |Times(s)|, v);
    if c in recent {
      assert v == Some(recent[c]);
    } else {
      assert v == None;
    }
  }

  /** A tick from aligned storage leaves it aligned. */
  lemma SyncedKeepsAligned(s: Storage, recent: Frame, selected: set<string>, now: real)
    requires Aligned(s)
    ensures Aligned(Synced(s, recent, selected, now))
  {
    SyncedAligned(s, recent, selected, now);
  }

  // ---------------------------------------------------------------------------
  // The plot window and the RPM bar

  /** Samples beyond which only a window is plotted, and that window's span in
      seconds. */
  const PlotThreshold := 300
  const PlotWindowSeconds := 12.0

  /** The index the plot starts from: with auto-scroll on and more than 300
      samples, the last sample older than 12 seconds before the newest one, or
      0 when there is none; otherwise 0. */
  method PlotStartIndex(t: seq<real>, autoScroll: bool) returns (start: nat)
    ensures start == 0 || start < |t|
    ensures !(autoScroll && |t| > PlotThreshold) ==> start == 0
    ensures autoScroll && |t| > PlotThreshold ==>
      var target := t[|t| - 1] - PlotWindowSeconds;
      && (forall j | start < j < |t| :: t[j] >= target)
      && ((forall j | 0 <= j < |t| :: t[j] >= target) ==> start == 0)
      && ((exists j | 0 <= j < |t| :: t[j] < target) ==> t[start] < target)
  {
    start := 0;
    if autoScroll && |t| > PlotThreshold {
      var target := t[|t| - 1] - PlotWindowSeconds;
      var i := |t| - 1;
      while i >= 0
        invariant -1 <= i < |t|
        invariant forall j | i < j < |t| :: t[j] >= target
      {
        if t[i] < target {
          start := i;
          return;
        }
        i := i - 1;
      }
    }
  }

  /** With nondecreasing sample times the plotted window is exactly one sample
      older than 12 seconds followed by everything newer. */
  lemma PlotWindowSorted(t: seq<real>, start: nat)
    requires |t| > PlotThreshold && start < |t|
    requires forall i, j | 0 <= i <= j < |t| :: t[i] <= t[j]
    requires t[start] < t[|t| - 1] - PlotWindowSeconds
    requires forall j | start < j < |t| :: t[j] >= t[|t| - 1] - PlotWindowSeconds
    ensures forall j | 0 <= j < start :: t[j] < t[|t| - 1] - PlotWindowSeconds
  {
  }

  /** The RPM bar's full scale. */
  const RpmFullScale := 13000.0

  datatype BarColour = Green | Gold | Red

  /** The bar's fill: the fraction of full scale, at most one. */
  function RpmFill(rpm: real): (f: real)
    ensures f <= 1.0
    ensures 0.0 <= rpm ==> 0.0 <= f
    ensures f == 1.0 <==> rpm >= RpmFullScale
  {
    if rpm / RpmFullScale < 1.0 then rpm / RpmFullScale else 1.0
  }

  /** The bar's colour: green below 8000 rpm, gold below 11000, red from there. */
  function RpmColour(rpm: real): BarColour {
    if rpm < 8000.0 then Green else if rpm < 11000.0 then Gold else Red
  }

  function Severity(c: BarColour): nat {
    match c
    case Green => 0
    case Gold => 1
    case Red => 2
  }

  /** More revs never make the bar emptier or its colour milder. */
  lemma RpmBarMonotone(a: real, b: real)
    requires a <= b
    ensures RpmFill(a) <= RpmFill(b)
    ensures Severity(RpmColour(a)) <= Severity(RpmColour(b))
  {
  }

  /** A full bar is always red, and a red bar is at least 11000/13000 full. */
  lemma RpmFullIsRed(rpm: real)
    ensures RpmFill(rpm) == 1.0 ==> RpmColour(rpm) == Red
    ensures RpmColour(rpm) == Red ==> RpmFill(rpm) >= 11000.0 / RpmFullScale
  {
  }

  /** The bar is updated only when the drained data carries an RPM value. */
  function RpmBar(recent: Frame): (bar: Option<(real, BarColour)>)
    ensures bar.Some? <==> "RPM" in recent
    ensures bar.Some? ==> bar.value.0 <= 1.0
  {
    if "RPM" in recent then Some((RpmFill(recent["RPM"]), RpmColour(recent["RPM"]))) else None
  }

  /** The sync loop of `update_live_gui`: stamps the tick, then extends the
      channels one at a time. */
  method SyncChannels(s: Storage, recent: Frame, selected: set<string>, now: real) returns (st: Storage)
    ensures st == Synced(s, recent, selected, now)
  {
    var time := if TimeKey in s then s[TimeKey] else [];
    var n := |time|;
    st := s[TimeKey := time + [now]];
    var todo := (s.Keys + recent.Keys + selected) - {TimeKey};
    ghost var all := todo;
    assert all == Channels(s, recent, selected);
    while todo != {}
      invariant todo <= all
      invariant st.Keys == s.Keys + {TimeKey} + (all - todo)
      invariant st[TimeKey] == Times(s) + [now]
      invariant forall c | c in all - todo :: st[c] == Extended(History(s, c), n, Lookup(recent, c))
      invariant forall c | c in s && c in todo :: st[c] == s[c]
      decreases todo
    {
      var c :| c in todo;
      var h := if c in st then st[c] else [];
      assert h == History(s, c);
      st := st[c := Extended(h, n, Lookup(recent, c))];
      todo := todo - {c};
    }
    SyncedFromParts(s, recent, selected, now, st);
  }

  // ---------------------------------------------------------------------------
  // The live view

  class LiveTelemetry {
    var active: bool
    var storage: Storage
    /** Decoded frames waiting for the GUI, oldest first. */
    var queue: seq<Frame>
    var selected: seq<string>

    /** `start_live_telemetry`: active, with no sample times yet. */
    constructor(selected: seq<string>)
      ensures active && storage == map[TimeKey := []] && queue == [] && this.selected == selected
      ensures Aligned(storage)
    {
      active := true;
      storage := map[TimeKey := []];
      queue := [];
      this.selected := selected;
    }

    /** `stop_live_telemetry`. */
    method Stop()
      modifies this
      ensures !active && storage == old(storage) && queue == old(queue) && selected == old(selected)
    {
      active := false;
    }

    /** Takes every queued frame, merging them in arrival order, and counts them. */
    method DrainQueue() returns (recent: Frame, count: nat)
      modifies this
      ensures queue == [] && count == |old(queue)| && recent == MergeAll(old(queue))
      ensures active == old(active) && storage == old(storage) && selected == old(selected)
    {
      recent := map[];
      count := 0;
      ghost var taken: seq<Frame> := [];
      while queue != []
        invariant old(queue) == taken + queue
        invariant count == |taken| && recent == MergeAll(taken)
        invariant active == old(active) && storage == old(storage) && selected == old(selected)
        decreases |queue|
      {
        var d := queue[0];
        queue := queue[1..];
        recent := recent + d;
        count := count + 1;
        assert (taken + [d])[..|taken|] == taken;
        taken := taken + [d];
      }
      assert taken == old(queue);
    }

    /** Appends the time `now` and one sample to every channel to update. */
    method SyncStorage(recent: Frame, now: real)
      modifies this
      ensures storage == Synced(old(storage), recent, SetOf(selected), now)
      ensures active == old(active) && queue == old(queue) && selected == old(selected)
    {
      storage := SyncChannels(storage, recent, SetOf(selected), now);
    }

    /** `update_live_gui`: when active, drains the queue; if anything was
        drained, stamps the tick at `now` and updates every channel. The returned
        frame is what the dashboards show. */
    method UpdateLive(now: real) returns (recent: Frame, count: nat)
      modifies this
      ensures !old(active) ==> recent == map[] && count == 0 && queue == old(queue)
      ensures old(active) ==> queue == [] && count == |old(queue)| && recent == MergeAll(old(queue))
      ensures count == 0 ==> storage == old(storage)
      ensures count > 0 ==> storage == Synced(old(storage), recent, SetOf(selected), now)
      ensures active == old(active) && selected == old(selected)
    {
      if !active {
        return map[], 0;
      }
      recent, count := DrainQueue();
      if count > 0 {
        SyncStorage(recent, now);
      }
    }
  }
}
