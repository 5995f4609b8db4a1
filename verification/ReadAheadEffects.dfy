/** What each operation of the read-ahead scheduler does, block by block. */
module ReadAheadEffects {
  import opened Sets
  import opened ReadAhead

  // ---------------------------------------------------------------- filling

  /** Block `i` is being read ahead the way it will play: as a stream or as a WAV, with its own entry in
      that table and none in the other. */
  ghost predicate IsPrefetch(t: Reader, i: nat, w: Window)
    requires i in t.jobs
  {
    var q := t.jobs[i];
    && q.ahead && q.index == i && (q.wav <==> i !in w.streaming)
    && (q.wav ==> i in t.cache && t.cache[i] == q && i !in t.streams)
    && (!q.wav ==> i in t.streams && t.streams[i] == q && i !in t.cache)
  }

  /** The blocks that a fill has added. */
  ghost predicate IsNew(r: Reader, t: Reader, i: nat) { i in t.jobs && i !in r.jobs }

  ghost predicate SameEntries(r: Reader, t: Reader, i: nat) {
    && (i in t.cache <==> i in r.cache) && (i in r.cache && i in t.cache ==> t.cache[i] == r.cache[i])
    && (i in t.streams <==> i in r.streams) && (i in r.streams && i in t.streams ==> t.streams[i] == r.streams[i])
  }

  /** What filling the blocks [index, end) does: the lowest untabled ones are prefetched and nothing else
      changes. */
  ghost predicate Fills(r: Reader, t: Reader, w: Window, index: nat, end: nat) {
    && (forall i :: i in r.jobs ==> i in t.jobs && t.jobs[i] == r.jobs[i])
    && (forall i: nat :: IsNew(r, t, i) ==> index <= i < end && !Tabled(r, i) && IsPrefetch(t, i, w))
    && (forall i, j :: IsNew(r, t, i) && index <= j < i && !Tabled(r, j) ==> j in t.jobs)
    && (forall i :: !IsNew(r, t, i) ==> SameEntries(r, t, i))
    && (forall q :: q in t.live <==> q in r.live || (IsNew(r, t, q.index) && q == t.jobs[q.index]))
    && t.aborted == r.aborted
  }

  lemma {:induction false} FillsNothing(r: Reader, w: Window, index: nat, end: nat)
    ensures Fills(r, r, w, index, end)
  {
  }

  /** A tabled block is passed over. */
  lemma {:induction false} FillsPast(r: Reader, t: Reader, w: Window, index: nat, end: nat)
    requires Tabled(r, index) && index < end && Fills(r, t, w, index + 1, end)
    ensures Fills(r, t, w, index, end)
  {
  }

  lemma {:induction false} LaunchIsPrefetch(r: Reader, index: nat, w: Window)
    requires !Tabled(r, index)
    ensures IsPrefetch(LaunchAhead(r, index, index !in w.streaming), index, w)
  {
  }

  /** An untabled block is prefetched first, and then the rest is filled. */
  lemma {:induction false} FillsMore(r: Reader, u: Reader, t: Reader, w: Window, index: nat, end: nat)
    requires JobsAreLive(r) && !Tabled(r, index) && index !in r.jobs && index < end
    requires u == LaunchAhead(r, index, index !in w.streaming) && Fills(u, t, w, index + 1, end)
    ensures Fills(r, t, w, index, end)
  {
    LaunchIsPrefetch(r, index, w);
    assert index in u.jobs && index in t.jobs && !IsNew(u, t, index);
    assert SameEntries(u, t, index);
    forall i | i != index ensures IsNew(r, t, i) <==> IsNew(u, t, i) { }
    forall i | i != index ensures Tabled(u, i) <==> Tabled(r, i) { }
    forall i | !IsNew(r, t, i) ensures SameEntries(r, t, i) { assert i != index && SameEntries(u, t, i); }
    FillsMoreLive(r, u, t, w, index, end);
  }

  lemma {:induction false} FillsMoreLive(r: Reader, u: Reader, t: Reader, w: Window, index: nat, end: nat)
    requires !Tabled(r, index) && index !in r.jobs && index < end
    requires u == LaunchAhead(r, index, index !in w.streaming) && Fills(u, t, w, index + 1, end)
    ensures forall q :: q in t.live <==> q in r.live || (IsNew(r, t, q.index) && q == t.jobs[q.index])
  {
    assert t.jobs[index] == u.jobs[index] && !IsNew(u, t, index);
    forall q ensures q in t.live <==> q in r.live || (IsNew(r, t, q.index) && q == t.jobs[q.index]) {
      assert q in u.live <==> q in r.live || q == u.jobs[index];
      assert u.jobs[index].index == index;
    }
  }

  lemma {:induction false} FillFromFills(r: Reader, w: Window, index: nat, end: nat, t: Reader)
    requires Inv(r) && index > r.position && t == FillFrom(r, w, index, end)
    ensures Fills(r, t, w, index, end)
    decreases end - index
  {
    if index >= end || Saturated(r, w) {
      if index < end { SaturatedStays(r, w, index, end); }
      FillsNothing(r, w, index, end);
    } else {
      var u := FillOne(r, w, index);
      FillOneKeepsInv(r, w, index, u);
      FillOneFrame(r, w, index);
      FillFromFills(u, w, index + 1, end, t);
      if Tabled(r, index) {
        FillsPast(r, t, w, index, end);
      } else {
        NotYetAJob(r, index);
        FillsMore(r, u, t, w, index, end);
      }
    }
  }

  /** Filling happens when the reader is not paused for casting, the window of the current block is open,
      there is a queue and no back-off. Then it looks at the blocks behind the current one, at most eight,
      up to the end of the queue and the stop, and prefetches the lowest that are in neither table, each the
      way it will play, as many as make two jobs in all; or none when the byte budget is used up. Otherwise
      it changes nothing. */
  lemma {:induction false} FillMeaning(r: Reader, w: Window, t: Reader)
    requires Inv(r) && t == Fill(r, w)
    ensures
      var end := Min(Min(r.length, w.stop), r.position + 9);
      var open := !r.capture && r.from == r.position && r.length > 0 && !w.waiting;
      && (!open || w.full ==> t == r)
      && Fills(r, t, w, r.position + 1, end)
      && (open && !w.full ==> |t.jobs| == Min(2, |r.jobs| + Untabled(r, r.position + 1, end)))
      && t.position == r.position && t.from == r.from
  {
    FillKeepsRoom(r, w, t);
    if MayFill(r, w) && !w.full {
      OpenFillMeaning(r, w, r.position + 1, Horizon(r, w), t);
    } else {
      ShutFillJobs(r, w, t);
      FillsNothing(r, w, r.position + 1, Horizon(r, w));
    }
  }

  lemma {:induction false} OpenFillMeaning(r: Reader, w: Window, index: nat, end: nat, t: Reader)
    requires Inv(r) && !w.full && index > r.position && t == FillFrom(r, w, index, end)
    ensures Fills(r, t, w, index, end) && |t.jobs| == Min(2, |r.jobs| + Untabled(r, index, end))
  {
    FillFromFills(r, w, index, end, t);
    OpenFillJobs(r, w, t, index, end);
  }

  // ---------------------------------------------------------------- making room

  /** Evicting leaves one job if there was any, the nearest one; the others are aborted and lose their
      entries; nothing else changes. */
  ghost predicate Evicts(r: Reader, t: Reader) {
    && (forall i :: i in t.jobs ==> i in r.jobs && t.jobs[i] == r.jobs[i])
    && (forall i :: i in r.jobs && i !in t.jobs ==>
          r.jobs[i] in t.aborted && r.jobs[i] !in t.live && !Tabled(t, i))
    && (forall i :: i !in r.jobs || i in t.jobs ==> SameEntries(r, t, i))
    && (forall q :: q in r.live && !q.ahead ==> q in t.live)
    && t.live <= r.live && t.next == r.next && t.position == r.position && t.capture == r.capture
  }

  lemma {:induction false} EvictsOne(r: Reader, far: nat, t: Reader)
    requires Inv(r) && far in r.jobs && Evicts(Forget(r, far), t) && t.aborted >= Forget(r, far).aborted
    ensures Evicts(r, t)
  {
    var u := Forget(r, far);
    assert far !in u.jobs && far !in t.jobs && SameEntries(u, t, far);
    assert r.jobs[far] in u.aborted && r.jobs[far] !in u.live;
    forall i | i != far ensures SameEntries(r, u, i) { }
    forall i | i !in r.jobs || i in t.jobs ensures SameEntries(r, t, i) { assert SameEntries(u, t, i); }
  }

  lemma {:induction false} EvictMeaning(r: Reader, t: Reader)
    requires Inv(r) && t == Evict(r)
    ensures Evicts(r, t) && |t.jobs| == Min(1, |r.jobs|) && r.aborted <= t.aborted
    decreases |r.jobs|
  {
    if |r.jobs| > 1 {
      var far := Farthest(r.jobs.Keys);
      ForgetKeepsInv(r, far);
      EvictMeaning(Forget(r, far), t);
      EvictsOne(r, far, t);
    }
  }

  /** A demand makes no request when the reader is paused for casting or the block is in its own table. It
      makes one otherwise, of the kind asked for, in that table, after making room unless the block is in
      the other table. */
  lemma {:induction false} DemandMeaning(r: Reader, wav: bool)
    requires Inv(r)
    ensures
      var t, own, other := Demand(r, wav), if wav then r.cache else r.streams, if wav then r.streams else r.cache;
      if r.capture || r.position in own then t == r
      else
        var q := Request(r.next, r.position, false, wav);
        var room := if r.position in other then r else Evict(r);
        && t.live == room.live + {q} && t.jobs == room.jobs && t.aborted == room.aborted
        && (if wav then t.cache == room.cache[r.position := q] && t.streams == room.streams
            else t.streams == room.streams[r.position := q] && t.cache == room.cache)
  {
    EvictMeaning(r, Evict(r));
  }

  // ---------------------------------------------------------------- completions and stops

  /** A request that settles is gone from the live and the aborted ones. If it failed, or was aborted, its
      own entry goes too, except that of a foreground stream; a finished one keeps its entry for the block
      to play from. Its job ends. Entries and jobs of any other request stay. */
  lemma {:induction false} SettledMeaning(r: Reader, q: Request, ok: bool)
    requires Inv(r) && (q in r.live || q in r.aborted)
    ensures
      var t := Settled(r, q, ok);
      var failed := !ok || q !in r.live;
      && t.live == r.live - {q} && t.aborted == r.aborted - {q}
      && (forall i :: i in t.jobs <==> i in r.jobs && r.jobs[i] != q)
      && (forall i :: i in t.cache <==> i in r.cache && !(failed && q.wav && i == q.index && r.cache[i] == q))
      && (forall i :: i in t.streams <==> i in r.streams && !(failed && !q.wav && q.ahead && i == q.index && r.streams[i] == q))
      && (forall i :: i in t.jobs ==> t.jobs[i] == r.jobs[i])
      && (forall i :: i in t.cache ==> t.cache[i] == r.cache[i])
      && (forall i :: i in t.streams ==> t.streams[i] == r.streams[i])
  {
  }

  /** After the completion of a job the window is filled again; after that of any other request nothing
      more happens. */
  lemma {:induction false} SettleFills(r: Reader, q: Request, ok: bool, w: Window)
    requires Inv(r) && (q in r.live || q in r.aborted)
    ensures
      var t := Settled(r, q, ok);
      Step(r, Settling(q, ok, w)) == if q in r.live && q.ahead then Fill(t, w) else t
  {
    if q in r.live && q.ahead { assert q.index in r.jobs && r.jobs[q.index] == q; }
  }

  /** Stopping aborts every request and empties every table. */
  lemma {:induction false} StopMeaning(r: Reader, position: nat, length: nat, capture: bool)
    ensures
      var t := Step(r, Stopped(position, length, capture));
      && t.live == {} && t.jobs == map[] && t.cache == map[] && t.streams == map[]
      && t.aborted == r.aborted + r.live && t.from < 0
      && t.position == position && t.length == length && t.capture == capture
  {
  }

  /** A voice change drops everything prefetched for later blocks, aborts their jobs, keeps the current block
      and what is before it, and fills the window again. */
  lemma {:induction false} VoiceChangeMeaning(r: Reader, w: Window)
    requires Inv(r)
    ensures
      var t := Discarded(r);
      && Step(r, VoicesChanged(w)) == Fill(t, w)
      && (forall i :: i > r.position ==> i !in t.jobs && !Tabled(t, i))
      && (forall i :: i > r.position && i in r.jobs ==> r.jobs[i] in t.aborted && r.jobs[i] !in t.live)
      && (forall i: nat :: i <= r.position ==> SameEntries(r, t, i))
      && (forall i :: i <= r.position && i in r.jobs ==> i in t.jobs && t.jobs[i] == r.jobs[i] && r.jobs[i] in t.live)
      && (forall q :: q in r.live && !q.ahead ==> q in t.live)
      && t.live <= r.live && t.position == r.position
  {
    var t := Discarded(r);
    forall i | i <= r.position && i in r.jobs ensures r.jobs[i] in t.live {
      assert r.jobs[i].index == i;
    }
  }

  /** A block that has been played leaves the cache and the next one is current; an open window fills; a
      stream that is being read leaves its table. */
  lemma {:induction false} PlayMeaning(r: Reader, w: Window)
    requires Inv(r)
    ensures
      var t := Step(r, Played);
      t.position == r.position + 1 && t.cache == r.cache - {r.position} && t.streams == r.streams &&
      t.jobs == r.jobs && t.live == r.live && t.from == r.from
    ensures Step(r, WindowOpened(w)) == Fill(r.(from := r.position), w) && Step(r, RetryTimer(w)) == Fill(r, w)
    ensures Step(r, StreamTaken) == r.(streams := r.streams - {r.position})
  {
  }
}
