/**
 * The saved-place synchronizer (`placeSync` in assets/shell/10-reader-place.js): a write-back
 * machine with one write in flight, a retry timer and rate limits. Times are milliseconds; timers
 * fire at or after their deadline.
 */
module PlaceSync {
  import opened Wrappers

  type Page = string

  /** A saved place: the current one and the history by scope, both as encoded. */
  datatype Entry = Entry(savedAt: int, current: string, scopes: string)
  type Pages = map<Page, Entry>

  /** Pages in the order in which they are encoded. */
  type List = seq<(Page, Entry)>

  /** The encoded size of a list of pages, in bytes. */
  type Size = List -> nat

  const WRITE_EVERY := 30000
  const FLUSH_EVERY := 2000
  const BUSY_RETRY := 1000
  const SOON := 500
  const BLOCKED_FOR := 60000
  const MAX_PAGES := 16
  const MAX_BYTES := 48 * 1024
  const NO_SCOPES := "{}"

  function Max(a: int, b: int): int { if a < b then b else a }

  function Take<T>(xs: seq<T>, n: nat): seq<T> { if |xs| <= n then xs else xs[..n] }

  // ---------------------------------------------------------------- the payload

  /** `list` holds exactly the entries of `pages`. */
  ghost predicate Lists(list: List, pages: Pages) {
    && (forall i :: 0 <= i < |list| ==> list[i].0 in pages && pages[list[i].0] == list[i].1)
    && (forall p :: p in pages ==> exists i :: 0 <= i < |list| && list[i].0 == p)
  }

  /** No page twice, and from the newest to the oldest. */
  ghost predicate Ordered(list: List) {
    && (forall i, j :: 0 <= i < j < |list| ==> list[i].0 != list[j].0)
    && (forall i, j :: 0 <= i < j < |list| ==> list[i].1.savedAt >= list[j].1.savedAt)
  }

  /** What sorting the entries of `pages` gives. JavaScript's stable sort leaves pages of the same age in
      the order of insertion; here they may come in any order. */
  ghost predicate IsNewest(newest: List, pages: Pages) { Lists(newest, pages) && Ordered(newest) }

  function Stripped(e: Entry): Entry { e.(scopes := NO_SCOPES) }

  /** The loop of `payload`: drop the oldest page while the list is too large. */
  function Shrunk(size: Size, list: List): List
    decreases |list|
  {
    if size(list) <= MAX_BYTES || |list| <= 1 then list else Shrunk(size, list[..|list| - 1])
  }

  function Payload(size: Size, newest: List): Option<List> {
    var list := Shrunk(size, Take(newest, MAX_PAGES));
    if size(list) <= MAX_BYTES then Some(list)
    else if list == [] then None
    else
      var bare := [(list[0].0, Stripped(list[0].1))];
      if size(bare) <= MAX_BYTES then Some(bare) else None
  }

  /** `k` is the longest prefix of the newest pages, at least one and at most 16, that fits. */
  ghost predicate LongestThatFits(size: Size, newest: List, k: nat) {
    && 1 <= k <= |newest| && k <= 16 && size(newest[..k]) <= 49152
    && forall m :: k < m <= |newest| && m <= 16 ==> size(newest[..m]) > 49152
  }

  ghost predicate NoneFits(size: Size, newest: List) {
    forall k :: 1 <= k <= |newest| && k <= 16 ==> size(newest[..k]) > 49152
  }

  lemma {:induction false} ShrunkIsLongest(size: Size, newest: List, n: nat)
    requires 1 <= n <= |newest|
    ensures
      var list := Shrunk(size, newest[..n]);
      && 1 <= |list| <= n && list == newest[..|list|]
      && (forall m :: |list| < m <= n ==> size(newest[..m]) > 49152)
      && (size(list) > 49152 ==> |list| == 1)
    decreases n
  {
    if size(newest[..n]) > 49152 && n > 1 {
      assert newest[..n][..n - 1] == newest[..n - 1];
      ShrunkIsLongest(size, newest, n - 1);
    }
  }

  /** What is sent: as many of the newest pages as fit, else the newest one without its scopes, else
      nothing. */
  lemma {:induction false} PayloadMeaning(size: Size, newest: List)
    requires newest != []
    ensures !NoneFits(size, newest) ==>
      exists k: nat :: LongestThatFits(size, newest, k) && Payload(size, newest) == Some(newest[..k])
    ensures NoneFits(size, newest) ==>
      var (page, entry) := newest[0];
      var bare := [(page, Entry(entry.savedAt, entry.current, "{}"))];
      Payload(size, newest) == if size(bare) <= 49152 then Some(bare) else None
  {
    var n := |Take(newest, 16)|;
    assert Take(newest, 16) == newest[..n];
    ShrunkIsLongest(size, newest, n);
    var list := Shrunk(size, newest[..n]);
    if size(list) <= 49152 { assert LongestThatFits(size, newest, |list|); }
  }

  /** The payload is all of the pages exactly when there are at most 16 and they fit together. */
  lemma {:induction false} PayloadIsWholeExactlyWhen(size: Size, newest: List)
    ensures Payload(size, newest) == Some(newest) <==> |newest| <= 16 && size(newest) <= 49152
  {
    if newest != [] {
      var n := |Take(newest, 16)|;
      assert Take(newest, 16) == newest[..n];
      ShrunkIsLongest(size, newest, n);
      var list := Shrunk(size, newest[..n]);
      if size(list) > 49152 && |newest| == 1 { assert list == newest == [(newest[0].0, newest[0].1)]; }
    }
  }

  /** Nothing can be sent exactly when no prefix fits and the newest page is too large even bare. */
  lemma {:induction false} PayloadIsMissingExactlyWhen(size: Size, newest: List)
    requires newest != []
    ensures Payload(size, newest).None? <==>
            NoneFits(size, newest) && size([(newest[0].0, Stripped(newest[0].1))]) > 49152
  {
    PayloadMeaning(size, newest);
  }

  lemma {:induction false} PayloadFits(size: Size, newest: List)
    ensures Payload(size, newest).Some? ==>
      size(Payload(size, newest).value) <= 49152 && |Payload(size, newest).value| <= 16
  {
    if newest != [] {
      var n := |Take(newest, 16)|;
      assert Take(newest, 16) == newest[..n];
      ShrunkIsLongest(size, newest, n);
    }
  }

  /** `payload`, on the sorted entries. */
  method BuildPayload(newest: List, size: Size) returns (r: Option<List>)
    ensures r == Payload(size, newest)
  {
    var list := Take(newest, MAX_PAGES);
    while size(list) > MAX_BYTES && |list| > 1
      invariant Shrunk(size, list) == Shrunk(size, Take(newest, MAX_PAGES))
      decreases |list|
    {
      list := list[..|list| - 1];
    }
    if size(list) <= MAX_BYTES { return Some(list); }
    if list == [] { return None; }
    var bare := [(list[0].0, Stripped(list[0].1))];
    return if size(bare) <= MAX_BYTES then Some(bare) else None;
  }

  lemma {:induction false} NewestFirst(pages: Pages, left: set<Page>) returns (p: Page)
    requires left != {} && left <= pages.Keys
    ensures p in left && forall q :: q in left ==> pages[q].savedAt <= pages[p].savedAt
    decreases |left|
  {
    p :| p in left;
    var rest := left - {p};
    if rest != {} {
      var q := NewestFirst(pages, rest);
      if pages[q].savedAt > pages[p].savedAt { p := q; }
    }
  }

  /** Every set of pages can be sorted. */
  lemma {:induction false} NewestExists(pages: Pages) returns (newest: List)
    ensures IsNewest(newest, pages)
    decreases |pages.Keys|
  {
    if pages.Keys == {} {
      newest := [];
    } else {
      var p := NewestFirst(pages, pages.Keys);
      var others := pages - {p};
      assert others.Keys == pages.Keys - {p};
      var rest := NewestExists(others);
      newest := [(p, pages[p])] + rest;
      NewestInFront(pages, p, rest);
    }
  }

  lemma {:induction false} NewestInFront(pages: Pages, p: Page, rest: List)
    requires p in pages && IsNewest(rest, pages - {p})
    requires forall q :: q in pages ==> pages[q].savedAt <= pages[p].savedAt
    ensures IsNewest([(p, pages[p])] + rest, pages)
  {
    var newest := [(p, pages[p])] + rest;
    var others := pages - {p};
    forall i | 0 <= i < |rest| ensures rest[i].0 in pages && rest[i].0 != p && pages[rest[i].0] == rest[i].1 {
      assert rest[i].0 in others;
    }
    forall q | q in pages ensures exists i :: 0 <= i < |newest| && newest[i].0 == q {
      assert q != p ==> q in others;
      FrontCovers(p, pages[p], rest, q);
    }
  }

  lemma {:induction false} FrontCovers(p: Page, entry: Entry, rest: List, q: Page)
    requires q == p || exists i :: 0 <= i < |rest| && rest[i].0 == q
    ensures var newest := [(p, entry)] + rest; exists i :: 0 <= i < |newest| && newest[i].0 == q
  {
    var newest := [(p, entry)] + rest;
    if q == p {
      assert newest[0].0 == p;
    } else {
      var i :| 0 <= i < |rest| && rest[i].0 == q;
      assert newest[i + 1].0 == q;
    }
  }

  // ---------------------------------------------------------------- loading

  /** The server's pages as listed, each page once; an entry is `None` where the source skips it as
      invalid. */
  type Listing = server: seq<(Page, Option<Entry>)> |
    forall j, k :: 0 <= j < k < |server| ==> server[j].0 != server[k].0

  /** Local wins only if it is strictly newer. */
  predicate LocalWins(local: Pages, page: Page, server: Entry) {
    page in local && local[page].savedAt > server.savedAt
  }

  /** What loading leaves: the pages, whether an upload is due, and local storage. */
  datatype Merge = Merge(pages: Pages, changed: bool, local: Pages)

  function Merged(pages: Pages, server: Listing, local: Pages): Merge
    decreases |server|
  {
    if server == [] then Merge(pages, false, local)
    else
      var last := |server| - 1;
      var rest := Merged(pages, server[..last], local);
      var (page, entry) := server[last];
      if entry.None? then rest
      else if LocalWins(local, page, entry.value) then rest.(pages := rest.pages[page := local[page]], changed := true)
      else rest.(pages := rest.pages[page := entry.value], local := rest.local[page := entry.value])
  }

  /** A place known only to this device, for the page that is not in a bundle. */
  predicate OnlyHere(m: Merge, bundle: bool) {
    !bundle && "" in m.local && m.local[""].savedAt > 0 && "" !in m.pages
  }

  function LoadedAll(pages: Pages, server: Listing, local: Pages, bundle: bool): Merge {
    var m := Merged(pages, Take(server, MAX_PAGES), local);
    if OnlyHere(m, bundle) then m.(pages := m.pages["" := m.local[""]], changed := true) else m
  }

  /** Local storage is still as it was for every page not listed. */
  ghost predicate Untouched(local: Pages, before: Pages, server: Listing) {
    forall p :: !Mentions(server, p) ==> (p in local <==> p in before) && (p in local ==> local[p] == before[p])
  }

  ghost predicate Mentions(server: Listing, page: Page) { exists k :: 0 <= k < |server| && server[k].0 == page }

  lemma {:induction false} MergedUntouched(pages: Pages, server: Listing, local: Pages)
    ensures Untouched(Merged(pages, server, local).local, local, server)
    decreases |server|
  {
    if server != [] {
      var last := |server| - 1;
      MergedUntouched(pages, server[..last], local);
      forall p | !Mentions(server, p) ensures !Mentions(server[..last], p) && server[last].0 != p {
        assert forall k :: 0 <= k < last ==> server[..last][k] == server[k];
      }
    }
  }

  /** The body of `load`: the newer copy of each page wins on both sides, and a place known only to this
      device is uploaded once. */
  method Load(pages: Pages, server: Listing, local: Pages, bundle: bool) returns (m: Merge)
    ensures m == LoadedAll(pages, server, local, bundle)
  {
    var listed: Listing := Take(server, MAX_PAGES);
    m := Merge(pages, false, local);
    for i := 0 to |listed|
      invariant m == Merged(pages, listed[..i], local)
    {
      assert listed[..i + 1][..i] == listed[..i];
      MergedUntouched(pages, listed[..i], local);
      assert !Mentions(listed[..i], listed[i].0);
      var (page, entry) := listed[i];
      if entry.None? { continue; }
      if page in m.local && m.local[page].savedAt > entry.value.savedAt {
        m := m.(pages := m.pages[page := m.local[page]], changed := true);
      } else {
        m := m.(pages := m.pages[page := entry.value], local := m.local[page := entry.value]);
      }
    }
    assert listed[..|listed|] == listed;
    if !bundle && "" in m.local && m.local[""].savedAt > 0 && "" !in m.pages {
      m := m.(pages := m.pages["" := m.local[""]], changed := true);
    }
  }

  /** Loading only ever adds pages or replaces their entries. */
  lemma {:induction false} MergedGrows(pages: Pages, server: Listing, local: Pages)
    ensures pages.Keys <= Merged(pages, server, local).pages.Keys
    decreases |server|
  {
    if server != [] { MergedGrows(pages, server[..|server| - 1], local); }
  }

  lemma {:induction false} LoadedGrows(pages: Pages, server: Listing, local: Pages, bundle: bool)
    ensures pages.Keys <= LoadedAll(pages, server, local, bundle).pages.Keys
  {
    MergedGrows(pages, Take(server, 16), local);
  }

  /** The local copy of the k-th listed page is newer than the server's. */
  ghost predicate LocalIsNewer(server: Listing, local: Pages, k: nat)
    requires k < |server|
  {
    server[k].1.Some? && LocalWins(local, server[k].0, server[k].1.value)
  }

  /** A listed page ends up as the newer of its two copies, in the pages and in local storage alike. */
  lemma {:induction false} NewerCopyWins(pages: Pages, server: Listing, local: Pages, i: nat)
    requires i < |server| && server[i].1.Some?
    ensures
      var (page, entry) := server[i];
      var m := Merged(pages, server, local);
      && page in m.pages && page in m.local && m.pages[page] == m.local[page]
      && m.pages[page] == (if LocalIsNewer(server, local, i) then local[page] else entry.value)
      && m.pages[page].savedAt >= entry.value.savedAt && (page in local ==> m.pages[page].savedAt >= local[page].savedAt)
    decreases |server|
  {
    var last := |server| - 1;
    if i < last {
      NewerCopyWins(pages, server[..last], local, i);
      assert server[i].0 != server[last].0;
    } else {
      MergedUntouched(pages, server[..last], local);
      assert !Mentions(server[..last], server[last].0);
    }
  }

  /** An upload is due exactly when some local copy is the newer one. */
  lemma {:induction false} UploadExactlyWhenLocalIsNewer(pages: Pages, server: Listing, local: Pages)
    ensures Merged(pages, server, local).changed <==> exists k: nat :: k < |server| && LocalIsNewer(server, local, k)
    decreases |server|
  {
    if server != [] {
      var last := |server| - 1;
      UploadExactlyWhenLocalIsNewer(pages, server[..last], local);
      assert forall k: nat :: k < last ==> (LocalIsNewer(server[..last], local, k) <==> LocalIsNewer(server, local, k));
      assert LocalIsNewer(server, local, last) <==> server[last].1.Some? && LocalWins(local, server[last].0, server[last].1.value);
    }
  }

  // ---------------------------------------------------------------- the state

  /** Why the next write may come early: not at all, a pause or stop, or a forced write. */
  datatype Urgency = Calm | Flushed | Forced

  /** A write request: the key is deleted when no page is left. */
  datatype Content = Delete | Put(list: List)

  /** The pages that the last write decided on, if there has been one. */
  datatype Decision = Undecided | Decided(newest: List)

  /** `inflight` holds the write requests not answered yet. The last four fields are history: the
      strongest call since the last write started; what the last write decided on; whether a load has
      changed the pages since; and the last write that the server accepted. */
  datatype Sync = Sync(
    size: Size, disabled: bool, settled: bool, dirty: bool, busy: bool, timer: Option<int>,
    lastWrite: int, blockedUntil: int, pages: Pages, inflight: seq<Content>,
    urgency: Urgency, last: Decision, reloaded: bool, stored: Option<Content>)

  datatype Response = Status(code: nat) | NoResponse

  /** `newest` is what sorting the pages gives where the event writes. A load brings a listing, which is
      empty unless the response has one, and what local storage holds then; or it fails before that. */
  datatype Event =
    | Save(page: Page, entry: Entry)
    | Clear(page: Page, newest: List)
    | Flush(force: bool, newest: List)
    | Tick(newest: List)
    | Reply(index: nat, response: Response)
    | SettleTimeout
    | Loaded(server: Listing, local: Pages, bundle: bool, refused: bool)
    | LoadFailed

  function Strongest(a: Urgency, b: Urgency): Urgency {
    if a.Forced? || b.Forced? then Forced else if a.Flushed? || b.Flushed? then Flushed else Calm
  }

  // ---------------------------------------------------------------- operations

  function Scheduled(s: Sync, now: int): Sync {
    if s.disabled || s.timer.Some? then s
    else s.(timer := Some(now + Max(SOON, Max(s.lastWrite + WRITE_EVERY - now, s.blockedUntil - now))))
  }

  /** What a write of these pages sends; `None` when no payload fits. */
  function ContentOf(size: Size, newest: List): Option<Content> {
    if newest == [] then Some(Delete)
    else
      var payload := Payload(size, newest);
      if payload.Some? then Some(Put(payload.value)) else None
  }

  /** Nothing keeps `write` from coming to its payload. */
  predicate Open(s: Sync, now: int) {
    !s.disabled && s.dirty && s.settled && !s.busy && s.blockedUntil <= now
  }

  function Written(s: Sync, now: int, newest: List): Sync {
    var s1 := s.(timer := None);
    if s.disabled || !s.dirty then s1
    else if !s.settled || s.busy then s1.(timer := Some(now + BUSY_RETRY))
    else if s.blockedUntil > now then s1.(timer := Some(s.blockedUntil))
    else
      var content := ContentOf(s.size, newest);
      var s2 := s1.(dirty := false, last := Decided(newest), reloaded := false);
      if content.None? then s2
      else s2.(busy := true, lastWrite := now, inflight := s.inflight + [content.value], urgency := Calm)
  }

  predicate Refuses(code: nat) {
    code == 400 || code == 401 || code == 403 || code == 404 || code == 409 || code == 413
  }

  /** The server took the write; a delete may find nothing to delete. */
  predicate Accepts(removed: bool, response: Response) {
    response.Status? && (200 <= response.code < 300 || (removed && response.code == 404))
  }

  function Answered(s: Sync, removed: bool, response: Response, now: int): Sync {
    match response
    case NoResponse => s.(dirty := true)
    case Status(code) =>
      if code == 429 then s.(blockedUntil := now + BLOCKED_FOR, dirty := true)
      else if removed && code == 404 then s
      else if Refuses(code) then s.(disabled := true)
      else if !(200 <= code < 300) then s.(dirty := true)
      else s
  }

  function OnReply(s: Sync, index: nat, response: Response, now: int): Sync
    requires index < |s.inflight|
  {
    var content := s.inflight[index];
    var s1 := Answered(s, content.Delete?, response, now);
    var s2 := s1.(busy := false, inflight := s.inflight[..index] + s.inflight[index + 1..],
                  stored := if Accepts(content.Delete?, response) then Some(content) else s.stored);
    if s2.dirty then Scheduled(s2, now) else s2
  }

  function OnSave(s: Sync, page: Page, entry: Entry, now: int): Sync {
    if s.disabled || (page in s.pages && s.pages[page].savedAt == entry.savedAt) then s
    else Scheduled(s.(pages := s.pages[page := entry], dirty := true), now)
  }

  function OnClear(s: Sync, page: Page, newest: List, now: int): Sync {
    if s.disabled || !s.settled || page !in s.pages then s
    else Written(s.(pages := s.pages - {page}, dirty := true, urgency := Forced), now, newest)
  }

  function OnFlush(s: Sync, force: bool, newest: List, now: int): Sync {
    if !s.dirty || s.disabled then s
    else
      var s1 := s.(urgency := Strongest(s.urgency, if force then Forced else Flushed));
      if s.lastWrite + FLUSH_EVERY > now && !force then s1.(timer := Some(s.lastWrite + FLUSH_EVERY))
      else Written(s1, now, newest)
  }

  /** The answer to the first read, with everything its handlers do. */
  function OnLoaded(s: Sync, server: Listing, local: Pages, bundle: bool, refused: bool, now: int): Sync {
    var m := LoadedAll(s.pages, server, local, bundle);
    Resumed(Brought(s, m.pages, m.changed, refused), now)
  }

  function Brought(s: Sync, merged: Pages, changed: bool, refused: bool): Sync {
    s.(disabled := s.disabled || refused, pages := merged, dirty := s.dirty || changed,
       reloaded := s.reloaded || merged != s.pages)
  }

  /** The end of `load`, however it went. */
  function Resumed(s: Sync, now: int): Sync {
    var s1 := s.(settled := true);
    if s.dirty then Scheduled(s1, now) else s1
  }

  ghost predicate Enabled(s: Sync, e: Event, now: int) {
    match e
    case Clear(page, newest) => IsNewest(newest, s.pages - {page})
    case Flush(_, newest) => IsNewest(newest, s.pages)
    case Tick(newest) => s.timer.Some? && s.timer.value <= now && IsNewest(newest, s.pages)
    case Reply(index, _) => index < |s.inflight|
    case Loaded(server, _, _, refused) => refused ==> server == []
    case _ => true
  }

  ghost function Step(s: Sync, e: Event, now: int): Sync
    requires Enabled(s, e, now)
  {
    match e
    case Save(page, entry) => OnSave(s, page, entry, now)
    case Clear(page, newest) => OnClear(s, page, newest, now)
    case Flush(force, newest) => OnFlush(s, force, newest, now)
    case Tick(newest) => Written(s, now, newest)
    case Reply(index, response) => OnReply(s, index, response, now)
    case SettleTimeout => s.(settled := true)
    case Loaded(server, local, bundle, refused) => OnLoaded(s, server, local, bundle, refused, now)
    case LoadFailed => Resumed(s, now)
  }

  function Start(size: Size, disabled: bool): Sync {
    Sync(size, disabled, disabled, false, false, None, 0, 0, map[], [], Calm, Undecided, false, None)
  }

  // ---------------------------------------------------------------- invariant

  /** How long after the last write the next one may start. */
  function Gap(u: Urgency): int {
    match u case Calm => 30000 case Flushed => 2000 case Forced => 0
  }

  /** Within the limits of the design record: 16 pages and 48 KiB. */
  ghost predicate Bounded(size: Size, c: Content) {
    c.Put? ==> |c.list| <= 16 && size(c.list) <= 49152
  }

  /** What a decision means: with nothing unsaved, all of its pages are still there, just as they were
      unless a load has changed them; its request is the one in flight, and has been accepted once nothing
      is in flight or unsaved. */
  ghost predicate Decisive(s: Sync) {
    s.last.Decided? ==>
      var newest, content := s.last.newest, ContentOf(s.size, s.last.newest);
      && Ordered(newest)
      && (!s.dirty ==> forall i :: 0 <= i < |newest| ==> newest[i].0 in s.pages)
      && (!s.dirty && !s.reloaded ==> IsNewest(newest, s.pages))
      && (s.busy ==> content.Some? && s.inflight == [content.value])
      && (!s.busy && !s.dirty && !s.disabled && content.Some? ==> s.stored == content)
  }

  /** What holds even inside a step. */
  ghost predicate Core(s: Sync) {
    && |s.inflight| <= 1 && (s.busy <==> |s.inflight| == 1)
    && Decisive(s)
    && (s.busy ==> Bounded(s.size, s.inflight[0]))
    && (s.stored.Some? ==> Bounded(s.size, s.stored.value))
  }

  /** One write at a time; an unsaved change always has a timer or a write in flight; and timers
      respect the rate limit. */
  ghost predicate Inv(s: Sync) {
    && Core(s)
    && (s.dirty && !s.disabled ==> s.timer.Some? || s.busy)
    && (s.timer.Some? ==> s.timer.value >= s.lastWrite + Gap(s.urgency))
  }

  lemma {:induction false} ContentIsBounded(size: Size, newest: List)
    ensures ContentOf(size, newest).Some? ==> Bounded(size, ContentOf(size, newest).value)
  {
    PayloadFits(size, newest);
  }

  lemma {:induction false} WriteKeepsInv(s: Sync, now: int, newest: List)
    requires Core(s) && now >= s.lastWrite + Gap(s.urgency) && IsNewest(newest, s.pages)
    ensures Inv(Written(s, now, newest)) && Written(s, now, newest).lastWrite <= now
  {
    ContentIsBounded(s.size, newest);
  }

  lemma {:induction false} ReplyKeepsInv(s: Sync, index: nat, response: Response, now: int)
    requires Inv(s) && index < |s.inflight|
    ensures Inv(OnReply(s, index, response, now))
  {
    var left := s.inflight[..index] + s.inflight[index + 1..];
    assert left == [];
    AnsweredFrame(s, s.inflight[index].Delete?, response, now);
  }

  /** A reply that neither leaves the change unsaved nor ends sync was an acceptance. */
  lemma {:induction false} AnsweredFrame(s: Sync, removed: bool, response: Response, now: int)
    ensures
      var s1 := Answered(s, removed, response, now);
      && s1 == s.(dirty := s1.dirty, disabled := s1.disabled, blockedUntil := s1.blockedUntil)
      && (s1.dirty || s1.disabled || Accepts(removed, response))
      && (s.dirty ==> s1.dirty) && (s.disabled ==> s1.disabled)
  {
  }

  lemma {:induction false} SaveKeepsInv(s: Sync, page: Page, entry: Entry, now: int)
    requires Inv(s)
    ensures Inv(OnSave(s, page, entry, now)) && OnSave(s, page, entry, now).lastWrite == s.lastWrite
  {
  }

  lemma {:induction false} ClearKeepsInv(s: Sync, page: Page, newest: List, now: int)
    requires Inv(s) && s.lastWrite <= now && IsNewest(newest, s.pages - {page})
    ensures Inv(OnClear(s, page, newest, now)) && OnClear(s, page, newest, now).lastWrite <= now
  {
    if !s.disabled && s.settled && page in s.pages {
      WriteKeepsInv(s.(pages := s.pages - {page}, dirty := true, urgency := Forced), now, newest);
    }
  }

  lemma {:induction false} FlushKeepsInv(s: Sync, force: bool, newest: List, now: int)
    requires Inv(s) && s.lastWrite <= now && IsNewest(newest, s.pages)
    ensures Inv(OnFlush(s, force, newest, now)) && OnFlush(s, force, newest, now).lastWrite <= now
  {
    var s1 := s.(urgency := Strongest(s.urgency, if force then Forced else Flushed));
    if s.dirty && !s.disabled && (force || s.lastWrite + 2000 <= now) { WriteKeepsInv(s1, now, newest); }
  }

  lemma {:induction false} ResumedKeepsInv(s: Sync, now: int)
    requires Core(s) && (s.timer.Some? ==> s.timer.value >= s.lastWrite + Gap(s.urgency))
    ensures Inv(Resumed(s, now)) && Resumed(s, now).lastWrite == s.lastWrite
  {
  }

  lemma {:induction false} BroughtKeepsCore(s: Sync, merged: Pages, changed: bool, refused: bool)
    requires Core(s) && s.pages.Keys <= merged.Keys
    ensures Core(Brought(s, merged, changed, refused))
  {
  }

  lemma {:induction false} LoadedKeepsInv(s: Sync, server: Listing, local: Pages, bundle: bool, refused: bool, now: int)
    requires Inv(s)
    ensures
      var t := OnLoaded(s, server, local, bundle, refused, now);
      Inv(t) && t.lastWrite == s.lastWrite
  {
    LoadedGrows(s.pages, server, local, bundle);
    var m := LoadedAll(s.pages, server, local, bundle);
    BroughtKeepsCore(s, m.pages, m.changed, refused);
    ResumedKeepsInv(Brought(s, m.pages, m.changed, refused), now);
  }

  lemma {:induction false} WritingKeepsInv(s: Sync, e: Event, now: int)
    requires Inv(s) && Enabled(s, e, now) && s.lastWrite <= now && (e.Clear? || e.Flush? || e.Tick?)
    ensures Inv(Step(s, e, now)) && Step(s, e, now).lastWrite <= now
  {
    if e.Clear? {
      ClearKeepsInv(s, e.page, e.newest, now);
    } else if e.Flush? {
      FlushKeepsInv(s, e.force, e.newest, now);
    } else {
      WriteKeepsInv(s, now, e.newest);
    }
  }

  lemma {:induction false} StepKeepsInv(s: Sync, e: Event, now: int)
    requires Inv(s) && Enabled(s, e, now) && s.lastWrite <= now
    ensures Inv(Step(s, e, now)) && Step(s, e, now).lastWrite <= now
  {
    if e.Clear? || e.Flush? || e.Tick? {
      WritingKeepsInv(s, e, now);
    } else if e.Save? || e.Reply? {
      ChangingKeepsInv(s, e, now);
    } else {
      LoadingKeepsInv(s, e, now);
    }
  }

  lemma {:induction false} ChangingKeepsInv(s: Sync, e: Event, now: int)
    requires Inv(s) && Enabled(s, e, now) && s.lastWrite <= now && (e.Save? || e.Reply?)
    ensures Inv(Step(s, e, now)) && Step(s, e, now).lastWrite <= now
  {
    if e.Save? {
      SaveKeepsInv(s, e.page, e.entry, now);
    } else {
      AnsweredFrame(s, s.inflight[e.index].Delete?, e.response, now);
      ReplyKeepsInv(s, e.index, e.response, now);
    }
  }

  lemma {:induction false} LoadingKeepsInv(s: Sync, e: Event, now: int)
    requires Inv(s) && Enabled(s, e, now) && s.lastWrite <= now && (e.SettleTimeout? || e.Loaded? || e.LoadFailed?)
    ensures Inv(Step(s, e, now)) && Step(s, e, now).lastWrite <= now
  {
    if e.Loaded? {
      LoadedKeepsInv(s, e.server, e.local, e.bundle, e.refused, now);
    } else if e.LoadFailed? {
      ResumedKeepsInv(s, now);
    }
  }

  lemma {:induction false} StepKeepsSize(s: Sync, e: Event, now: int)
    requires Enabled(s, e, now)
    ensures Step(s, e, now).size == s.size
  {
    match e
    case Save(page, entry) =>
    case Clear(page, newest) =>
      WrittenKeepsSize(s.(pages := s.pages - {page}, dirty := true, urgency := Forced), now, newest);
    case Flush(force, newest) =>
      WrittenKeepsSize(s.(urgency := Strongest(s.urgency, if force then Forced else Flushed)), now, newest);
    case Tick(newest) => WrittenKeepsSize(s, now, newest);
    case Reply(index, response) => AnsweredFrame(s, s.inflight[index].Delete?, response, now);
    case SettleTimeout =>
    case Loaded(server, local, bundle, refused) =>
    case LoadFailed =>
  }

  lemma {:induction false} WrittenKeepsSize(s: Sync, now: int, newest: List)
    ensures Written(s, now, newest).size == s.size
  {
  }

  // ---------------------------------------------------------------- whole runs

  /** Events with the times at which they happen; the clock never runs backwards. */
  ghost predicate IsRun(s: Sync, clock: int, events: seq<(Event, int)>)
    decreases |events|
  {
    events == [] ||
    var (e, now) := events[0];
    clock <= now && Enabled(s, e, now) && IsRun(Step(s, e, now), now, events[1..])
  }

  ghost function Run(s: Sync, clock: int, events: seq<(Event, int)>): Sync
    requires IsRun(s, clock, events)
    decreases |events|
  {
    if events == [] then s else Run(Step(s, events[0].0, events[0].1), events[0].1, events[1..])
  }

  /** The clock after the events. */
  ghost function Clock(clock: int, events: seq<(Event, int)>): int {
    if events == [] then clock else events[|events| - 1].1
  }

  lemma {:induction false} RunKeepsInv(s: Sync, clock: int, events: seq<(Event, int)>)
    requires Inv(s) && s.lastWrite <= clock && IsRun(s, clock, events)
    ensures Inv(Run(s, clock, events)) && Run(s, clock, events).size == s.size
    ensures Run(s, clock, events).lastWrite <= Clock(clock, events)
    decreases |events|
  {
    if events != [] {
      var (e, now) := events[0];
      StepKeepsInv(s, e, now);
      StepKeepsSize(s, e, now);
      RunKeepsInv(Step(s, e, now), now, events[1..]);
    }
  }

  /** Sync is enabled and has nothing left to do. */
  ghost predicate AtRest(s: Sync) { s.timer.None? && !s.busy && !s.disabled }

  /** At most one write is in flight; an unsaved change has a timer or a write in flight while sync is
      enabled; at rest nothing is unsaved, the server holds what the last write sent, if it sent anything,
      and that write was about exactly the current pages, unless a load has changed them since. */
  ghost predicate NothingForgotten(s: Sync) {
    && |s.inflight| <= 1
    && (s.dirty && !s.disabled ==> s.timer.Some? || s.busy)
    && (AtRest(s) ==> !s.dirty)
    && (AtRest(s) && s.last.Decided? ==>
          var newest, content := s.last.newest, ContentOf(s.size, s.last.newest);
          && (content.Some? ==> s.stored == content)
          && (!s.reloaded ==> IsNewest(newest, s.pages)))
  }

  lemma {:induction false} InvForgetsNothing(s: Sync)
    requires Inv(s)
    ensures NothingForgotten(s)
  {
  }

  lemma {:induction false} NoChangeIsForgotten(size: Size, disabled: bool, events: seq<(Event, int)>)
    requires IsRun(Start(size, disabled), 0, events)
    ensures NothingForgotten(Run(Start(size, disabled), 0, events))
  {
    RunKeepsInv(Start(size, disabled), 0, events);
    InvForgetsNothing(Run(Start(size, disabled), 0, events));
  }

  lemma {:induction false} EmptyOnlyIfNoPages(newest: List, pages: Pages)
    requires IsNewest(newest, pages)
    ensures newest == [] <==> pages == map[]
  {
    if newest == [] {
      assert pages.Keys == {};
    } else {
      assert newest[0].0 in pages;
    }
  }

  /** The server holds exactly the current pages, each with its whole entry. */
  ghost predicate HoldsAll(s: Sync) {
    s.stored.Some? && s.stored.value.Put? && Lists(s.stored.value.list, s.pages)
  }

  /** The pages are those the last write decided on, at most 16, and they fit together. */
  ghost predicate SentWhole(s: Sync)
    requires s.last.Decided?
  {
    IsNewest(s.last.newest, s.pages) && |s.last.newest| <= 16 && s.size(s.last.newest) <= 49152
  }

  /** The one page there is was sent without its scopes, and a load has brought back that copy. */
  ghost predicate BareCameBack(s: Sync)
    requires s.last.Decided?
  {
    |s.last.newest| == 1 && s.size(s.last.newest) > 49152 &&
    var (page, entry) := s.last.newest[0];
    s.pages == map[page := Stripped(entry)]
  }

  /** In every run: at rest, when the last write sent something, the server holds all of the pages exactly
      when that write was about these pages and they were at most 16 that fit, or when a load has brought
      back the bare copy of the only page. Without pages the server holds nothing. */
  lemma {:induction false} ServerHoldsAllExactlyWhen(size: Size, disabled: bool, events: seq<(Event, int)>)
    requires IsRun(Start(size, disabled), 0, events)
    ensures
      var s := Run(Start(size, disabled), 0, events);
      AtRest(s) && s.last.Decided? && ContentOf(size, s.last.newest).Some? ==>
        && (s.pages != map[] ==> (HoldsAll(s) <==> SentWhole(s) || BareCameBack(s)))
        && (s.pages == map[] ==> s.stored == Some(Delete))
  {
    RunKeepsInv(Start(size, disabled), 0, events);
    var s := Run(Start(size, disabled), 0, events);
    if AtRest(s) && s.last.Decided? && ContentOf(size, s.last.newest).Some? { HeldExactlyWhen(s); }
  }

  lemma {:induction false} HeldExactlyWhen(s: Sync)
    requires Inv(s) && AtRest(s) && s.last.Decided? && ContentOf(s.size, s.last.newest).Some?
    ensures s.pages != map[] ==> (HoldsAll(s) <==> SentWhole(s) || BareCameBack(s))
    ensures s.pages == map[] ==> s.stored == Some(Delete)
  {
    var newest := s.last.newest;
    if newest == [] {
      if s.pages != map[] { NotListed([], s.pages); }
    } else {
      assert newest[0].0 in s.pages;
      PayloadShape(s.size, newest);
      var list := Payload(s.size, newest).value;
      if HoldsAll(s) { HeldIsWhole(s, list); }
      if SentWhole(s) { PayloadIsWholeExactlyWhen(s.size, newest); }
      if BareCameBack(s) { BareIsListed(newest[0].0, Stripped(newest[0].1)); BareIsSent(s.size, newest); }
    }
  }

  lemma {:induction false} NotListed(list: List, pages: Pages)
    requires list == [] && pages != map[]
    ensures !Lists(list, pages)
  {
    assert pages.Keys != {};
    var p :| p in pages.Keys;
  }

  lemma {:induction false} BareIsListed(page: Page, entry: Entry)
    ensures Lists([(page, entry)], map[page := entry])
  {
    assert [(page, entry)][0].0 == page;
  }

  lemma {:induction false} BareIsSent(size: Size, newest: List)
    requires |newest| == 1 && size(newest) > 49152 && Payload(size, newest).Some?
    ensures Payload(size, newest).value == [(newest[0].0, Stripped(newest[0].1))]
  {
    assert newest[..1] == newest;
    PayloadMeaning(size, newest);
  }

  /** A payload is a prefix of the newest pages, or the newest page bare when no prefix fits. */
  lemma {:induction false} PayloadShape(size: Size, newest: List)
    requires newest != [] && Payload(size, newest).Some?
    ensures
      var list := Payload(size, newest).value;
      || (1 <= |list| <= |newest| && list == newest[..|list|] && size(list) <= 49152 && |list| <= 16)
      || (NoneFits(size, newest) && list == [(newest[0].0, Stripped(newest[0].1))])
  {
    PayloadMeaning(size, newest);
  }

  lemma {:induction false} HeldIsWhole(s: Sync, list: List)
    requires Inv(s) && AtRest(s) && s.last.Decided? && s.last.newest != []
    requires Payload(s.size, s.last.newest) == Some(list) && Lists(list, s.pages)
    ensures SentWhole(s) || BareCameBack(s)
  {
    var newest := s.last.newest;
    PayloadShape(s.size, newest);
    if list == newest[..|list|] && 1 <= |list| <= |newest| && s.size(list) <= 49152 {
      PrefixIsWhole(newest, list, s.pages);
      assert list == newest;
    } else {
      BareIsAll(newest, list, s.pages);
      assert newest[..1] == newest;
      BareIsOnly(s.pages, list[0].0, list[0].1);
    }
  }

  lemma {:induction false} BareIsOnly(pages: Pages, page: Page, entry: Entry)
    requires Lists([(page, entry)], pages)
    ensures pages == map[page := entry]
  {
    var list := [(page, entry)];
    assert list[0].0 in pages;
  }

  /** All pages of an ordered list are listed by its prefix only if that is the whole list. */
  lemma {:induction false} PrefixIsWhole(newest: List, list: List, pages: Pages)
    requires Ordered(newest) && |list| <= |newest| && list == newest[..|list|] && Lists(list, pages)
    requires forall i :: 0 <= i < |newest| ==> newest[i].0 in pages
    ensures |list| == |newest|
  {
    if |list| < |newest| {
      var i :| 0 <= i < |list| && list[i].0 == newest[|list|].0;
    }
  }

  lemma {:induction false} BareIsAll(newest: List, list: List, pages: Pages)
    requires newest != [] && Ordered(newest) && |list| == 1 && list[0].0 == newest[0].0 && Lists(list, pages)
    requires forall i :: 0 <= i < |newest| ==> newest[i].0 in pages
    ensures |newest| == 1
  {
    if |newest| > 1 {
      var i :| 0 <= i < |list| && list[i].0 == newest[1].0;
    }
  }

  /** A load that comes after a write can leave pages at rest that the server does not hold: whatever was
      written, the listing brings one page more and no upload. */
  lemma {:induction false} LateLoadExample(size: Size, pages: Pages, newest: List, page: Page, entry: Entry)
    returns (events: seq<(Event, int)>)
    requires pages != map[] && IsNewest(newest, pages) && page !in pages && ContentOf(size, newest).Some?
    ensures IsRun(Start(size, false), 0, events)
    ensures
      var s := Run(Start(size, false), 0, events);
      AtRest(s) && s.pages == pages[page := entry] && s.stored == ContentOf(size, newest) && !HoldsAll(s)
  {
    events := RestIsReached(size, pages, newest);
    var s := Run(Start(size, false), 0, events);
    RunKeepsInv(Start(size, false), 0, events);
    var server: Listing := [(page, Some(entry))];
    BringsOne(pages, server, page, entry);
    RunThenStep(Start(size, false), 0, events, Loaded(server, map[], true, false), Clock(0, events));
    events := events + [(Loaded(server, map[], true, false), Clock(0, events))];
    RunKeepsInv(Start(size, false), 0, events);
    var t := Run(Start(size, false), 0, events);
    HeldExactlyWhen(t);
    assert page in t.pages;
    assert forall i :: 0 <= i < |newest| ==> newest[i].0 != page;
  }

  lemma {:induction false} BringsOne(pages: Pages, server: Listing, page: Page, entry: Entry)
    requires server == [(page, Some(entry))]
    ensures LoadedAll(pages, server, map[], true) == Merge(pages[page := entry], false, map[page := entry])
  {
    assert Take(server, 16) == server;
    assert server[..0] == [] && Merged(pages, server[..0], map[]) == Merge(pages, false, map[]);
  }

  /** A write that comes to its payload drops the change, sending nothing and waiting for nothing,
      exactly when no payload of the pages fits. */
  lemma {:induction false} ChangeIsDroppedExactlyWhen(s: Sync, now: int, newest: List)
    requires Inv(s) && Open(s, now) && IsNewest(newest, s.pages)
    ensures
      var n := Written(s, now, newest);
      !n.dirty && !n.busy && n.timer.None? && n.inflight == [] && n.stored == s.stored <==>
      newest != [] && NoneFits(s.size, newest) && s.size([(newest[0].0, Stripped(newest[0].1))]) > 49152
  {
    if newest != [] { PayloadIsMissingExactlyWhen(s.size, newest); }
  }

  lemma {:induction false} RunThenStep(s: Sync, clock: int, events: seq<(Event, int)>, e: Event, now: int)
    requires IsRun(s, clock, events) && Clock(clock, events) <= now && Enabled(Run(s, clock, events), e, now)
    ensures IsRun(s, clock, events + [(e, now)])
    ensures Run(s, clock, events + [(e, now)]) == Step(Run(s, clock, events), e, now)
    decreases |events|
  {
    var all := events + [(e, now)];
    if events == [] {
      assert all == [(e, now)] && all[1..] == [];
    } else {
      RunThenStep(Step(s, events[0].0, events[0].1), events[0].1, events[1..], e, now);
      assert all[1..] == events[1..] + [(e, now)];
    }
  }

  /** Any pages can come to be: a run that saves them one after the other. */
  lemma {:induction false} AnyPagesAreReached(size: Size, pages: Pages) returns (events: seq<(Event, int)>)
    ensures IsRun(Start(size, false), 0, events) && Clock(0, events) == 0
    ensures
      var s := Run(Start(size, false), 0, events);
      && s.pages == pages && (pages != map[] ==> s.dirty)
      && s.settled && !s.busy && !s.disabled && s.blockedUntil == 0 && s.size == size
    decreases |pages.Keys|
  {
    if pages.Keys == {} {
      events := [(SettleTimeout, 0)];
      assert events[1..] == [];
    } else {
      var p :| p in pages.Keys;
      var fewer := pages - {p};
      assert fewer.Keys == pages.Keys - {p};
      var before := AnyPagesAreReached(size, fewer);
      RunThenStep(Start(size, false), 0, before, Save(p, pages[p]), 0);
      events := before + [(Save(p, pages[p]), 0)];
      assert fewer[p := pages[p]] == pages;
    }
  }

  /** From any pages, leaving the page and an accepted write bring sync to rest. */
  lemma {:induction false} RestIsReached(size: Size, pages: Pages, newest: List) returns (events: seq<(Event, int)>)
    requires pages != map[] && IsNewest(newest, pages)
    ensures IsRun(Start(size, false), 0, events) && Clock(0, events) == 0
    ensures
      var s := Run(Start(size, false), 0, events);
      && AtRest(s) && s.last == Decided(newest) && s.pages == pages && s.size == size
      && s.settled && s.blockedUntil == 0 && !s.reloaded && (ContentOf(size, newest).Some? ==> s.lastWrite == 0)
  {
    events := AnyPagesAreReached(size, pages);
    var s := Run(Start(size, false), 0, events);
    RunKeepsInv(Start(size, false), 0, events);
    FlushThenAccept(s, newest);
    RunThenStep(Start(size, false), 0, events, Flush(true, newest), 0);
    events := events + [(Flush(true, newest), 0)];
    if ContentOf(size, newest).Some? {
      RunThenStep(Start(size, false), 0, events, Reply(0, Status(200)), 0);
      events := events + [(Reply(0, Status(200)), 0)];
    }
  }

  /** At rest on these pages, at time 0. */
  ghost predicate RestsOn(s: Sync, newest: List, pages: Pages) {
    AtRest(s) && s.last == Decided(newest) && s.pages == pages && s.settled && s.blockedUntil == 0 && !s.reloaded
  }

  lemma {:induction false} FlushThenAccept(s: Sync, newest: List)
    requires Inv(s) && s.settled && !s.busy && !s.disabled && s.dirty && s.blockedUntil == 0 && IsNewest(newest, s.pages)
    ensures
      var t := Step(s, Flush(true, newest), 0);
      && t.size == s.size
      && (ContentOf(s.size, newest).None? ==> RestsOn(t, newest, s.pages))
      && (ContentOf(s.size, newest).Some? ==>
            |t.inflight| == 1 && t.lastWrite == 0 &&
            var u := Step(t, Reply(0, Status(200)), 0);
            RestsOn(u, newest, s.pages) && u.lastWrite == 0 && u.size == s.size)
  {
    var t := Step(s, Flush(true, newest), 0);
    if ContentOf(s.size, newest).Some? { AcceptedAtRest(t, 0); }
  }

  lemma {:induction false} AcceptedAtRest(t: Sync, now: int)
    requires |t.inflight| == 1 && !t.dirty
    ensures Step(t, Reply(0, Status(200)), now) == t.(busy := false, inflight := [], stored := Some(t.inflight[0]))
  {
    assert t.inflight[..0] + t.inflight[0 + 1..] == [];
  }

  /** So the server need not hold every page: whatever the sizes, seventeen pages are reached and left
      at rest with one of them missing. */
  lemma {:induction false} SeventeenPagesExample(size: Size, pages: Pages) returns (events: seq<(Event, int)>)
    requires |pages.Keys| == 17
    ensures IsRun(Start(size, false), 0, events)
    ensures
      var s := Run(Start(size, false), 0, events);
      AtRest(s) && s.pages == pages && (s.stored.Some? && s.stored.value.Put? ==> |s.stored.value.list| <= 16)
  {
    var newest := NewestExists(pages);
    events := RestIsReached(size, pages, newest);
    RunKeepsInv(Start(size, false), 0, events);
  }

  /** And a change can be dropped: a single page that does not fit even without its scopes is left at
      rest with nothing on the server. */
  lemma {:induction false} DroppedChangeExample(size: Size, page: Page, entry: Entry) returns (events: seq<(Event, int)>)
    requires size([(page, entry)]) > 49152 && size([(page, Stripped(entry))]) > 49152
    ensures IsRun(Start(size, false), 0, events)
    ensures
      var s := Run(Start(size, false), 0, events);
      AtRest(s) && s.pages == map[page := entry] && !s.dirty && s.stored.None?
  {
    var pages := map[page := entry];
    var newest := [(page, entry)];
    var start := Start(size, false);
    var s1 := Step(start, SettleTimeout, 0);
    var s2 := Step(s1, Save(page, entry), 0);
    assert s2.pages == pages;
    assert newest[..1] == newest;
    PayloadIsMissingExactlyWhen(size, newest);
    RunThenStep(start, 0, [], SettleTimeout, 0);
    RunThenStep(start, 0, [] + [(SettleTimeout, 0)], Save(page, entry), 0);
    events := [] + [(SettleTimeout, 0)] + [(Save(page, entry), 0)];
    RunThenStep(start, 0, events, Flush(true, newest), 0);
    events := events + [(Flush(true, newest), 0)];
  }

  /** The step sends a write request. */
  ghost predicate Sends(s: Sync, e: Event, now: int)
    requires Enabled(s, e, now)
  {
    |Step(s, e, now).inflight| > |s.inflight|
  }

  /** A step before which nothing forces or flushes counts with its own urgency. */
  function UrgencyOf(s: Sync, e: Event): Urgency {
    match e
    case Clear(_, _) => Forced
    case Flush(force, _) => Strongest(s.urgency, if force then Forced else Flushed)
    case _ => s.urgency
  }

  /** A write starts only when none is in flight, not before `blockedUntil`, and after the last one
      by 30 s, by 2 s if a pause or stop asked for it, or at once if it was forced. It carries what is
      sent of the pages as they are then, within 16 pages and 48 KiB. */
  lemma {:induction false} WritesAreRateLimited(s: Sync, e: Event, now: int)
    requires Inv(s) && Enabled(s, e, now) && s.lastWrite <= now && Sends(s, e, now)
    ensures !s.busy && !s.disabled && s.settled
    ensures now >= s.blockedUntil
    ensures now >= s.lastWrite + Gap(UrgencyOf(s, e))
    ensures
      var n := Step(s, e, now);
      && n.lastWrite == now && n.last.Decided? && IsNewest(n.last.newest, n.pages)
      && |n.inflight| == 1 && ContentOf(s.size, n.last.newest) == Some(n.inflight[0])
      && Bounded(s.size, n.inflight[0])
  {
    StepKeepsInv(s, e, now);
  }

  /** A flush that is not forced keeps to one write every 2 s; a forced one, on hiding or leaving the page,
      does not. */
  lemma {:induction false} FlushSendsExactlyWhen(s: Sync, force: bool, newest: List, now: int)
    requires Inv(s) && IsNewest(newest, s.pages)
    ensures Sends(s, Flush(force, newest), now) <==>
            Open(s, now) && ContentOf(s.size, newest).Some? && (force || s.lastWrite + 2000 <= now)
  {
  }

  /** Finishing a reading writes at once too, however recent the last write. */
  lemma {:induction false} ClearSendsExactlyWhen(s: Sync, page: Page, newest: List, now: int)
    requires Inv(s) && IsNewest(newest, s.pages - {page})
    ensures Sends(s, Clear(page, newest), now) <==>
            !s.disabled && s.settled && page in s.pages && !s.busy && s.blockedUntil <= now &&
            ContentOf(s.size, newest).Some?
  {
  }

  lemma {:induction false} OnePage(page: Page, entry: Entry)
    ensures IsNewest([(page, entry)], map[page := entry])
  {
    assert [(page, entry)][0].0 == page;
  }

  lemma {:induction false} OnePageIsSent(size: Size, page: Page, entry: Entry)
    requires size([(page, entry)]) <= 49152
    ensures ContentOf(size, [(page, entry)]) == Some(Put([(page, entry)]))
  {
    PayloadIsWholeExactlyWhen(size, [(page, entry)]);
  }

  /** So two writes can start less than 2 s apart: a place is saved and the page hidden, the write is
      accepted, another place is saved and the page hidden again. */
  lemma {:induction false} TwoWritesExample(size: Size, page: Page, first: Entry, second: Entry, later: int)
    returns (before: seq<(Event, int)>, again: Event)
    requires first.savedAt != second.savedAt && 0 <= later < 2000
    requires size([(page, first)]) <= 49152 && size([(page, second)]) <= 49152
    ensures IsRun(Start(size, false), 0, before) && Clock(0, before) <= later
    ensures
      var s := Run(Start(size, false), 0, before);
      && s.lastWrite == 0 && s.stored == Some(Put([(page, first)]))
      && Enabled(s, again, later) && again.Flush? && Sends(s, again, later) && Step(s, again, later).lastWrite == later
  {
    var start, newest := Start(size, false), [(page, first)];
    OnePage(page, first);
    OnePageIsSent(size, page, first);
    assert page in map[page := first];
    before := RestIsReached(size, map[page := first], newest);
    RunKeepsInv(start, 0, before);
    var rest := Run(start, 0, before);
    RunThenStep(start, 0, before, Save(page, second), later);
    before := before + [(Save(page, second), later)];
    var s := Run(start, 0, before);
    again := Flush(true, [(page, second)]);
    assert s.pages == map[page := second];
    OnePage(page, second);
    OnePageIsSent(size, page, second);
    RunKeepsInv(start, 0, before);
    FlushSendsExactlyWhen(s, true, [(page, second)], later);
  }

  /** A change made while a write is in flight keeps the lane dirty through the reply, which arms the
      timer for another write. */
  lemma {:induction false} ChangeDuringWriteIsWrittenLater(s: Sync, page: Page, entry: Entry, now: int, response: Response, later: int)
    requires Inv(s) && s.busy && !s.disabled && s.lastWrite <= now <= later
    requires page !in s.pages || s.pages[page].savedAt != entry.savedAt
    ensures
      var s1 := Step(s, Save(page, entry), now);
      var s2 := Step(s1, Reply(0, response), later);
      && s1.dirty && s1.pages[page] == entry
      && !s2.busy && (s2.disabled || (s2.dirty && s2.timer.Some? && s2.pages[page] == entry))
  {
    StepKeepsInv(s, Save(page, entry), now);
    StepKeepsInv(Step(s, Save(page, entry), now), Reply(0, response), later);
  }

  // ---------------------------------------------------------------- the closure's state

  class Synchronizer {
    const size: Size
    var disabled: bool
    var settled: bool
    var dirty: bool
    var busy: bool
    var timer: Option<int>
    var lastWrite: int
    var blockedUntil: int
    var pages: Pages
    var inflight: seq<Content>
    ghost var urgency: Urgency
    ghost var last: Decision
    ghost var reloaded: bool
    ghost var stored: Option<Content>

    constructor (size: Size, disabled: bool)
      ensures State() == Start(size, disabled) && Inv(State())
    {
      this.size, this.disabled, settled, dirty, busy, timer := size, disabled, disabled, false, false, None;
      lastWrite, blockedUntil, pages, inflight := 0, 0, map[], [];
      urgency, last, reloaded, stored := Calm, Undecided, false, None;
    }

    ghost function State(): Sync
      reads this
    {
      Sync(size, disabled, settled, dirty, busy, timer, lastWrite, blockedUntil, pages, inflight, urgency, last, reloaded, stored)
    }

    method Schedule(now: int)
      modifies this`timer
      ensures State() == Scheduled(old(State()), now)
    {
      if disabled || timer.Some? { return; }
      timer := Some(now + Max(SOON, Max(lastWrite + WRITE_EVERY - now, blockedUntil - now)));
    }

    /** `write`, with the pages as sorted. */
    method Write(now: int, newest: List)
      requires IsNewest(newest, pages)
      modifies this
      ensures State() == Written(old(State()), now, newest)
    {
      timer := None;
      if disabled || !dirty { return; }
      if !settled || busy { timer := Some(now + BUSY_RETRY); return; }
      if blockedUntil - now > 0 { timer := Some(blockedUntil); return; }
      dirty, last, reloaded := false, Decided(newest), false;
      var content := Encode(newest);
      if content.None? { return; }
      busy, lastWrite := true, now;
      inflight := inflight + [content.value];
      urgency := Calm;
    }

    method Encode(newest: List) returns (content: Option<Content>)
      ensures content == ContentOf(size, newest)
    {
      if newest == [] { return Some(Delete); }
      var payload := BuildPayload(newest, size);
      return if payload.Some? then Some(Put(payload.value)) else None;
    }

    method Replied(index: nat, response: Response, now: int)
      requires Inv(State()) && index < |inflight|
      modifies this
      ensures State() == OnReply(old(State()), index, response, now) && Inv(State())
    {
      ReplyKeepsInv(State(), index, response, now);
      HandleReply(index, response, now);
    }

    method HandleReply(index: nat, response: Response, now: int)
      requires index < |inflight|
      modifies this`dirty, this`disabled, this`blockedUntil, this`busy, this`stored, this`inflight, this`timer
      ensures State() == OnReply(old(State()), index, response, now)
    {
      var removed := inflight[index].Delete?;
      Classify(removed, response, now);
      busy := false;
      if Accepts(removed, response) { stored := Some(inflight[index]); }
      inflight := inflight[..index] + inflight[index + 1..];
      if dirty { Schedule(now); }
    }

    /** What the status of a reply tells. */
    method Classify(removed: bool, response: Response, now: int)
      modifies this`dirty, this`disabled, this`blockedUntil
      ensures State() == Answered(old(State()), removed, response, now)
    {
      match response {
        case NoResponse => dirty := true;
        case Status(code) =>
          if code == 429 { blockedUntil, dirty := now + BLOCKED_FOR, true; }
          else if removed && code == 404 { }
          else if Refuses(code) { disabled := true; }
          else if !(200 <= code < 300) { dirty := true; }
      }
    }

    method Save(page: Page, entry: Entry, now: int)
      requires Inv(State())
      modifies this
      ensures State() == OnSave(old(State()), page, entry, now) && Inv(State())
    {
      SaveKeepsInv(State(), page, entry, now);
      if disabled { return; }
      if page in pages && pages[page].savedAt == entry.savedAt { return; }
      pages, dirty := pages[page := entry], true;
      Schedule(now);
    }

    method Clear(page: Page, newest: List, now: int)
      requires Inv(State()) && lastWrite <= now && IsNewest(newest, pages - {page})
      modifies this
      ensures State() == OnClear(old(State()), page, newest, now) && Inv(State())
    {
      ClearKeepsInv(State(), page, newest, now);
      if disabled || !settled || page !in pages { return; }
      pages, dirty, urgency := pages - {page}, true, Forced;
      Write(now, newest);
    }

    method Flush(force: bool, newest: List, now: int)
      requires Inv(State()) && lastWrite <= now && IsNewest(newest, pages)
      modifies this
      ensures State() == OnFlush(old(State()), force, newest, now) && Inv(State())
    {
      FlushKeepsInv(State(), force, newest, now);
      if !dirty || disabled { return; }
      urgency := Strongest(urgency, if force then Forced else Flushed);
      var gap := lastWrite + FLUSH_EVERY - now;
      if gap > 0 && !force { timer := Some(now + gap); return; }
      Write(now, newest);
    }

    method LoadDone(server: Listing, local: Pages, bundle: bool, refused: bool, now: int)
      requires Inv(State())
      modifies this
      ensures State() == OnLoaded(old(State()), server, local, bundle, refused, now) && Inv(State())
    {
      LoadedKeepsInv(State(), server, local, bundle, refused, now);
      var m := Load(pages, server, local, bundle);
      Bring(m.pages, m.changed, refused);
      Resume(now);
    }

    method Bring(merged: Pages, changed: bool, refused: bool)
      modifies this`reloaded, this`pages, this`disabled, this`dirty
      ensures State() == Brought(old(State()), merged, changed, refused)
    {
      reloaded := reloaded || merged != pages;
      pages, disabled, dirty := merged, disabled || refused, dirty || changed;
    }

    method Resume(now: int)
      modifies this`settled, this`timer
      ensures State() == Resumed(old(State()), now)
    {
      settled := true;
      if dirty { Schedule(now); }
    }

    method Dispatch(e: Event, now: int)
      requires Inv(State()) && lastWrite <= now && Enabled(State(), e, now)
      modifies this
      ensures State() == Step(old(State()), e, now) && Inv(State())
    {
      StepKeepsInv(State(), e, now);
      match e
      case Save(page, entry) => Save(page, entry, now);
      case Clear(page, newest) => Clear(page, newest, now);
      case Flush(force, newest) => Flush(force, newest, now);
      case Tick(newest) => Write(now, newest);
      case Reply(index, response) => Replied(index, response, now);
      case SettleTimeout => settled := true;
      case Loaded(server, local, bundle, refused) => LoadDone(server, local, bundle, refused, now);
      case LoadFailed => Resume(now);
    }

    /** Whatever happens to this object, in whatever order, it follows the run of those events, and no
        change is forgotten. */
    method Serve(clock: int, events: seq<(Event, int)>)
      requires Inv(State()) && lastWrite <= clock && IsRun(State(), clock, events)
      modifies this
      ensures State() == Run(old(State()), clock, events)
      ensures Inv(State()) && NothingForgotten(State())
    {
      ghost var at := clock;
      for i := 0 to |events|
        invariant Inv(State()) && lastWrite <= at && IsRun(State(), at, events[i..])
        invariant Run(State(), at, events[i..]) == Run(old(State()), clock, events)
      {
        var (e, now) := events[i];
        assert events[i..][0] == (e, now) && events[i..][1..] == events[i + 1..];
        StepKeepsInv(State(), e, now);
        Dispatch(e, now);
        at := now;
      }
      InvForgetsNothing(State());
    }
  }
}
