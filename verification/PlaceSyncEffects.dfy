/**
 * What each event of the saved-place synchronizer (assets/shell/10-reader-place.js) does, in the numbers
 * of the source: statuses, waits and limits. The invariants and the theorems over runs are in PlaceSync.
 */
module PlaceSyncEffects {
  import opened Wrappers
  import opened PlaceSync

  // ---------------------------------------------------------------- timers

  /** The next regular write: half a second from now, 30 s after the last write, or when the server's block
      ends, whichever is latest. */
  ghost predicate Latest(t: int, now: int, lastWrite: int, blockedUntil: int) {
    && t >= now + 500 && t >= lastWrite + 30000 && t >= blockedUntil
    && (t == now + 500 || t == lastWrite + 30000 || t == blockedUntil)
  }

  /** A change is due for a write: a timer that was armed stays as it is, and otherwise one is armed. */
  ghost predicate Armed(before: Option<int>, after: Option<int>, now: int, lastWrite: int, blockedUntil: int) {
    if before.Some? then after == before else after.Some? && Latest(after.value, now, lastWrite, blockedUntil)
  }

  // ---------------------------------------------------------------- replies

  /** Any 2xx, or 404 for a delete. */
  ghost predicate Taken(content: Content, response: Response) {
    response.Status? && (200 <= response.code <= 299 || (content.Delete? && response.code == 404))
  }

  /** 400, 401, 403, 409, 413, or 404 for a put. */
  ghost predicate EndsSync(content: Content, response: Response) {
    response.Status? && var code := response.code;
    (code == 400 || code == 401 || code == 403 || code == 409 || code == 413 || (content.Put? && code == 404))
  }

  lemma {:induction false} AnswerMeaning(s: Sync, content: Content, response: Response, now: int)
    ensures
      var n := Answered(s, content.Delete?, response, now);
      && n == s.(dirty := n.dirty, disabled := n.disabled, blockedUntil := n.blockedUntil)
      && n.disabled == (s.disabled || EndsSync(content, response))
      && n.dirty == (s.dirty || !(Taken(content, response) || EndsSync(content, response)))
      && n.blockedUntil == (if response == Status(429) then now + 60000 else s.blockedUntil)
  {
  }

  lemma {:induction false} ScheduledMeaning(s: Sync, now: int)
    ensures
      var n := Scheduled(s, now);
      && n == s.(timer := n.timer)
      && (if s.disabled then n.timer == s.timer else Armed(s.timer, n.timer, now, s.lastWrite, s.blockedUntil))
  {
  }

  /** A reply frees the lane. Of the replies exactly those of `Taken` change what the server holds, exactly those
      of `EndsSync` end sync, all others leave the change unsaved, and 429 blocks writing for a minute. */
  lemma {:induction false} ReplyMeaning(s: Sync, response: Response, now: int)
    requires Inv(s) && s.busy
    ensures
      var content, n := s.inflight[0], Step(s, Reply(0, response), now);
      && !n.busy && n.inflight == [] && n.pages == s.pages && n.lastWrite == s.lastWrite && n.settled == s.settled
      && n.stored == (if Taken(content, response) then Some(content) else s.stored)
      && n.disabled == (s.disabled || EndsSync(content, response))
      && n.dirty == (s.dirty || !(Taken(content, response) || EndsSync(content, response)))
      && n.blockedUntil == (if response == Status(429) then now + 60000 else s.blockedUntil)
      && (n.dirty && !n.disabled ==> Armed(s.timer, n.timer, now, s.lastWrite, n.blockedUntil))
      && (!n.dirty || n.disabled ==> n.timer == s.timer)
  {
    var content := s.inflight[0];
    var s1 := Answered(s, content.Delete?, response, now);
    AnswerMeaning(s, content, response, now);
    var left := s.inflight[..0] + s.inflight[0 + 1..];
    assert left == [];
    var s2 := s1.(busy := false, inflight := left, stored := if Taken(content, response) then Some(content) else s.stored);
    ScheduledMeaning(s2, now);
    assert Step(s, Reply(0, response), now) == if s2.dirty then Scheduled(s2, now) else s2;
  }

  /** So a write that neither was taken nor ended sync is made again: the timer that its reply arms finds the
      lane free, and sends what the pages are by then. */
  lemma {:induction false} FailedWriteIsMadeAgain(s: Sync, response: Response, now: int, newest: List, later: int)
    requires Inv(s) && s.busy && s.settled && !s.disabled && s.timer.None? && s.lastWrite <= now
    requires !Taken(s.inflight[0], response) && !EndsSync(s.inflight[0], response)
    requires IsNewest(newest, s.pages) && ContentOf(s.size, newest).Some?
    ensures
      var n := Step(s, Reply(0, response), now);
      && n.timer.Some? && now + 500 <= n.timer.value
      && (n.timer.value <= later ==>
            Enabled(n, Tick(newest), later) &&
            var again := Step(n, Tick(newest), later);
            again.busy && again.lastWrite == later && again.inflight == [ContentOf(s.size, newest).value])
  {
    ReplyMeaning(s, response, now);
  }

  // ---------------------------------------------------------------- changes

  /** A place is stored and due for a write unless it is the stored one already, told by its time; nothing else
      changes. */
  lemma {:induction false} SaveMeaning(s: Sync, page: Page, entry: Entry, now: int)
    requires !s.disabled
    ensures
      var n := Step(s, Save(page, entry), now);
      && n == s.(pages := n.pages, dirty := n.dirty, timer := n.timer)
      && page in n.pages && n.pages[page].savedAt == entry.savedAt
      && (forall p :: p != page ==> (p in n.pages <==> p in s.pages) && (p in s.pages ==> n.pages[p] == s.pages[p]))
      && (if page in s.pages && s.pages[page].savedAt == entry.savedAt then n == s
          else n.pages[page] == entry && n.dirty && Armed(s.timer, n.timer, now, s.lastWrite, s.blockedUntil))
  {
  }

  lemma {:induction false} NoneLeft(pages: Pages, page: Page)
    requires page in pages
    ensures pages - {page} == map[] <==> pages.Keys == {page}
  {
    assert (pages - {page}).Keys == pages.Keys - {page};
    if pages - {page} == map[] {
      assert pages.Keys - {page} == {};
      assert pages.Keys == {page};
    } else {
      assert (pages - {page}).Keys != {};
    }
  }

  /** Finishing a reading takes its page away, and no other, once loading has settled; what is left is written at
      once, or by a delete if nothing is left, unless a write is in flight or the server has asked to wait. */
  lemma {:induction false} ClearMeaning(s: Sync, page: Page, newest: List, now: int)
    requires Inv(s) && !s.disabled && IsNewest(newest, s.pages - {page})
    ensures
      var n := Step(s, Clear(page, newest), now);
      if !s.settled || page !in s.pages then n == s
      else
        && n.pages == s.pages - {page}
        && (s.busy ==> n.dirty && n.timer == Some(now + 1000))
        && (!s.busy && s.blockedUntil > now ==> n.dirty && n.timer == Some(s.blockedUntil))
        && (!s.busy && s.blockedUntil <= now && s.pages.Keys == {page} ==> n.inflight == [Delete])
        && (!s.busy && s.blockedUntil <= now && s.pages.Keys != {page} && n.busy ==> n.inflight[0].Put?)
  {
    EmptyOnlyIfNoPages(newest, s.pages - {page});
    if page in s.pages { NoneLeft(s.pages, page); }
  }

  /** A timer that fires with a change unsaved waits a second more while loading or while a write is in flight,
      and waits out the server's block; in every other case the write starts, and carries the pages of then. */
  lemma {:induction false} TickMeaning(s: Sync, newest: List, now: int)
    requires Inv(s) && s.dirty && !s.disabled && Enabled(s, Tick(newest), now)
    ensures
      var n := Step(s, Tick(newest), now);
      && n.pages == s.pages
      && (if !s.settled || s.busy then n == s.(timer := Some(now + 1000))
          else if s.blockedUntil > now then n == s.(timer := Some(s.blockedUntil))
          else !n.dirty && n.timer.None? && (n.busy <==> ContentOf(s.size, newest).Some?) &&
               (n.busy ==> n.lastWrite == now && ContentOf(s.size, newest) == Some(n.inflight[0])))
  {
  }

  /** With nothing unsaved a timer and a flush do nothing, and once sync has ended a change does nothing either. */
  lemma {:induction false} NothingToWrite(s: Sync, e: Event, now: int)
    requires Enabled(s, e, now)
    requires (!s.dirty && (e.Tick? || e.Flush?)) || (s.disabled && (e.Tick? || e.Flush? || e.Save? || e.Clear?))
    ensures Step(s, e, now) == if e.Tick? then s.(timer := None) else s
  {
  }

  lemma {:induction false} EndedStaysEnded(s: Sync, e: Event, now: int)
    requires Inv(s) && Enabled(s, e, now) && s.disabled
    ensures
      var n := Step(s, e, now);
      n.disabled && n.lastWrite == s.lastWrite && |n.inflight| <= |s.inflight| && (n.timer == s.timer || n.timer.None?)
  {
    if e.Reply? {
      var left := s.inflight[..e.index] + s.inflight[e.index + 1..];
      assert |left| < |s.inflight|;
      AnsweredFrame(s, s.inflight[e.index].Delete?, e.response, now);
    }
  }

  /** Once sync has ended nothing is ever written again, whatever happens. */
  lemma {:induction false} EndedForGood(s: Sync, clock: int, events: seq<(Event, int)>)
    requires Inv(s) && s.lastWrite <= clock && IsRun(s, clock, events) && s.disabled
    ensures
      var n := Run(s, clock, events);
      n.disabled && n.lastWrite == s.lastWrite && |n.inflight| <= |s.inflight| && (n.timer == s.timer || n.timer.None?)
    decreases |events|
  {
    if events != [] {
      var (e, now) := events[0];
      EndedStaysEnded(s, e, now);
      StepKeepsInv(s, e, now);
      EndedForGood(Step(s, e, now), now, events[1..]);
    }
  }

  /** A flush that is not forced and comes within 2 s of the last write is put off to the end of them. */
  lemma {:induction false} FlushIsPutOff(s: Sync, newest: List, now: int)
    requires Enabled(s, Flush(false, newest), now) && s.dirty && !s.disabled && now < s.lastWrite + 2000
    ensures
      var n := Step(s, Flush(false, newest), now);
      n == s.(timer := Some(s.lastWrite + 2000), urgency := n.urgency)
  {
  }

  /** Only a flush or a finished reading hurries the next write: without one of them a write keeps to the regular
      gap of 30 s, and after a write starts the next one has the regular gap again. */
  lemma {:induction false} UrgencyMeaning(s: Sync, e: Event, now: int)
    requires Inv(s) && Enabled(s, e, now)
    ensures
      var n := Step(s, e, now);
      && (Sends(s, e, now) ==> n.urgency == Calm)
      && (!e.Flush? && !e.Clear? && !Sends(s, e, now) ==> n.urgency == s.urgency)
      && (e.Flush? && !e.force && s.urgency != Forced ==> n.urgency != Forced)
      && (e.Flush? && !s.dirty ==> n.urgency == s.urgency)
      && (e.Flush? && s.dirty && !s.disabled && !Sends(s, e, now) ==>
            n.urgency == if e.force || s.urgency == Forced then Forced else Flushed)
      && (e.Clear? && !s.disabled && s.settled && e.page in s.pages && !Sends(s, e, now) ==> n.urgency == Forced)
  {
    if e.Clear? || e.Flush? || e.Tick? { WritingUrgency(s, e, now); } else { OtherUrgency(s, e, now); }
  }

  lemma {:induction false} WritingUrgency(s: Sync, e: Event, now: int)
    requires Enabled(s, e, now) && (e.Clear? || e.Flush? || e.Tick?)
    ensures
      var n := Step(s, e, now);
      && (Sends(s, e, now) ==> n.urgency == Calm)
      && (e.Tick? && !Sends(s, e, now) ==> n.urgency == s.urgency)
      && (e.Flush? && !e.force && s.urgency != Forced ==> n.urgency != Forced)
      && (e.Flush? && !s.dirty ==> n.urgency == s.urgency)
      && (e.Flush? && s.dirty && !s.disabled && !Sends(s, e, now) ==>
            n.urgency == if e.force || s.urgency == Forced then Forced else Flushed)
      && (e.Clear? && !s.disabled && s.settled && e.page in s.pages && !Sends(s, e, now) ==> n.urgency == Forced)
  {
    if e.Clear? {
      WrittenUrgency(s.(pages := s.pages - {e.page}, dirty := true, urgency := Forced), now, e.newest);
    } else if e.Flush? {
      WrittenUrgency(s.(urgency := Strongest(s.urgency, if e.force then Forced else Flushed)), now, e.newest);
    } else {
      WrittenUrgency(s, now, e.newest);
    }
  }

  lemma {:induction false} OtherUrgency(s: Sync, e: Event, now: int)
    requires Inv(s) && Enabled(s, e, now) && !e.Clear? && !e.Flush? && !e.Tick?
    ensures !Sends(s, e, now) && Step(s, e, now).urgency == s.urgency
  {
    if e.Reply? {
      var left := s.inflight[..e.index] + s.inflight[e.index + 1..];
      assert |left| < |s.inflight|;
      AnsweredFrame(s, s.inflight[e.index].Delete?, e.response, now);
    }
  }

  lemma {:induction false} WrittenUrgency(s: Sync, now: int, newest: List)
    ensures
      var n := Written(s, now, newest);
      |n.inflight| >= |s.inflight| && n.urgency == if |n.inflight| > |s.inflight| then Calm else s.urgency
  {
  }

  /** The rate limits in milliseconds: 30000 after the last write, 2000 when a pause or stop has asked since, and
      none when the page was hidden or left or a reading was finished. */
  lemma {:induction false} WriteGaps(s: Sync, e: Event, now: int)
    requires Inv(s) && Enabled(s, e, now) && s.lastWrite <= now && Sends(s, e, now)
    ensures s.urgency == Calm && !e.Flush? && !e.Clear? ==> now >= s.lastWrite + 30000
    ensures s.urgency != Forced && !(e.Flush? && e.force) && !e.Clear? ==> now >= s.lastWrite + 2000
    ensures now >= s.blockedUntil
  {
    WritesAreRateLimited(s, e, now);
  }

  // ---------------------------------------------------------------- loading

  /** One of the first 16 listed pages, with a valid entry. */
  ghost predicate Brings(server: Listing, k: nat, page: Page) {
    k < |server| && k < 16 && server[k].0 == page && server[k].1.Some?
  }

  lemma {:induction false} MergedLeavesOthers(pages: Pages, server: Listing, local: Pages, p: Page)
    requires |server| <= 16 && forall k: nat :: !Brings(server, k, p)
    ensures
      var m := Merged(pages, server, local);
      && (p in m.pages <==> p in pages) && (p in pages ==> m.pages[p] == pages[p])
      && (p in m.local <==> p in local) && (p in local ==> m.local[p] == local[p])
    decreases |server|
  {
    if server != [] {
      var last := |server| - 1;
      assert forall k: nat :: Brings(server[..last], k, p) ==> Brings(server, k, p);
      assert !Brings(server, last, p);
      MergedLeavesOthers(pages, server[..last], local, p);
    }
  }

  /** Of a page that the listing brings, the newer copy ends up in the pages and in local storage; the server's
      wins a tie. */
  lemma {:induction false} LoadBringsTheNewer(pages: Pages, server: Listing, local: Pages, bundle: bool, k: nat, page: Page)
    requires Brings(server, k, page)
    ensures
      var m, entry := LoadedAll(pages, server, local, bundle), server[k].1.value;
      && page in m.pages && page in m.local && m.pages[page] == m.local[page]
      && m.pages[page] == (if page in local && local[page].savedAt > entry.savedAt then local[page] else entry)
  {
    var listed: Listing := Take(server, 16);
    assert listed[k] == server[k];
    NewerCopyWins(pages, listed, local, k);
  }

  lemma {:induction false} FirstSixteen(server: Listing, p: Page)
    ensures forall k: nat :: Brings(Take(server, 16), k, p) <==> Brings(server, k, p)
  {
  }

  /** Of a page that the listing does not bring, nothing changes. Only the place of a page outside a bundle that
      no one but this device knows is taken up from local storage. */
  lemma {:induction false} LoadLeavesOthers(pages: Pages, server: Listing, local: Pages, bundle: bool, p: Page)
    requires forall k: nat :: !Brings(server, k, p)
    ensures
      var m := LoadedAll(pages, server, local, bundle);
      && (p in m.local <==> p in local) && (p in local ==> m.local[p] == local[p])
      && (p in pages ==> p in m.pages && m.pages[p] == pages[p])
      && (p !in pages ==> (p in m.pages <==> p == "" && !bundle && p in local && local[p].savedAt > 0))
      && (p !in pages && p in m.pages ==> m.pages[p] == local[p] && m.changed)
  {
    FirstSixteen(server, p);
    MergedLeavesOthers(pages, Take(server, 16), local, p);
  }

  /** The newer copy of a listed page is here, or the place is known only here. */
  ghost predicate HereIsNews(pages: Pages, server: Listing, local: Pages, bundle: bool) {
    || (exists k: nat, page :: Brings(server, k, page) && page in local && local[page].savedAt > server[k].1.value.savedAt)
    || (!bundle && "" in local && local[""].savedAt > 0 && "" !in pages && forall k: nat :: !Brings(server, k, ""))
  }

  /** An upload is due exactly when this device knows something that the server does not. */
  lemma {:induction false} LoadUploadsExactlyWhen(pages: Pages, server: Listing, local: Pages, bundle: bool)
    ensures LoadedAll(pages, server, local, bundle).changed <==> HereIsNews(pages, server, local, bundle)
  {
    var listed: Listing := Take(server, 16);
    UploadExactlyWhenLocalIsNewer(pages, listed, local);
    if k: nat :| k < |listed| && LocalIsNewer(listed, local, k) { assert Brings(server, k, server[k].0); }
    if k: nat, page :| Brings(server, k, page) && page in local && local[page].savedAt > server[k].1.value.savedAt {
      assert LocalIsNewer(listed, local, k);
    }
    if k: nat :| Brings(server, k, "") {
      assert listed[k] == server[k];
      NewerCopyWins(pages, listed, local, k);
    } else {
      FirstSixteen(server, "");
      MergedLeavesOthers(pages, listed, local, "");
    }
  }

  /** After the first read, whatever came of it, writes may start; what this device alone knows is due for one. */
  lemma {:induction false} LoadMeaning(s: Sync, server: Listing, local: Pages, bundle: bool, refused: bool, now: int)
    requires Enabled(s, Loaded(server, local, bundle, refused), now)
    ensures
      var n := Step(s, Loaded(server, local, bundle, refused), now);
      && n.settled && n.disabled == (s.disabled || refused) && n.inflight == s.inflight && n.busy == s.busy
      && n.pages == LoadedAll(s.pages, server, local, bundle).pages
      && n.dirty == (s.dirty || HereIsNews(s.pages, server, local, bundle))
      && (n.dirty && !n.disabled ==> Armed(s.timer, n.timer, now, s.lastWrite, s.blockedUntil))
      && (!n.dirty || n.disabled ==> n.timer == s.timer)
  {
    LoadUploadsExactlyWhen(s.pages, server, local, bundle);
  }
}
