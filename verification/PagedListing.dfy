/** Listing an S3 prefix page by page.

The server answers the request for a page from its call number and the marker; what
it sends is untrusted text, so a page may hold malformed or foreign entries, claim
to be truncated without naming a marker, or name one that was used before. */
module PagedListing {
  import opened Wrappers

  /** A field of the reply: missing, a string, or something else. */
  datatype Field = Missing | Text(s: string) | Other

  datatype EntryKind = Version | DeleteMarker

  datatype RawEntry = NotAnObject | RawEntry(key: Field, versionId: Field)

  datatype Collection = Malformed | Entries(entries: seq<RawEntry>)

  datatype Entry = Entry(kind: EntryKind, key: string, versionId: string)

  datatype ListError = Failed | BadPage | BadEntry | NoNextMarker | PaginationLoop

  /** What one call means to the loop: an error, the last page, or a page and the
      marker of the next one. */
  datatype Step<T, M> = Stop(error: ListError) | Last(entries: seq<T>) | More(entries: seq<T>, marker: M)

  /** A bucket as the loop sees it: call number and marker to step. */
  type Pager<!T, !M> = (nat, Option<M>) -> Step<T, M>

  // ---------------------------------------------------------------- reading a page

  /** Reply of list-object-versions. */
  datatype Reply =
    | CallFailed
    | NotAPage
    | Page(versions: Collection, deleteMarkers: Collection, truncated: bool, nextKey: Field, nextVersion: Field)

  /** The pagination marker; the version part is empty when the server sent none. */
  datatype Marker = Marker(key: string, version: string)

  predicate StartsWith(s: string, prefix: string) {
    prefix <= s
  }

  function CheckEntry(e: RawEntry, kind: EntryKind, prefix: string): Option<Entry> {
    match e
    case RawEntry(Text(key), Text(versionId)) =>
      if StartsWith(key, prefix) && versionId != "" then Some(Entry(kind, key, versionId)) else None
    case _ => None
  }

  function CheckEntries(es: seq<RawEntry>, kind: EntryKind, prefix: string): Option<seq<Entry>> {
    if es == [] then Some([])
    else
      match (CheckEntry(es[0], kind, prefix), CheckEntries(es[1..], kind, prefix))
      case (Some(first), Some(rest)) => Some([first] + rest)
      case _ => None
  }

  function CheckCollection(c: Collection, kind: EntryKind, prefix: string): Option<seq<Entry>> {
    if c.Malformed? then None else CheckEntries(c.entries, kind, prefix)
  }

  /** The entries of one page: its versions, then its delete markers. */
  function PageEntries(p: Reply, prefix: string): Option<seq<Entry>>
    requires p.Page?
  {
    match (CheckCollection(p.versions, Version, prefix), CheckCollection(p.deleteMarkers, DeleteMarker, prefix))
    case (Some(versions), Some(markers)) => Some(versions + markers)
    case _ => None
  }

  /** The marker a truncated page names. */
  function NextMarker(p: Reply): Option<Marker>
    requires p.Page?
  {
    match (p.nextKey, p.nextVersion)
    case (Text(key), Text(version)) => if key != "" then Some(Marker(key, version)) else None
    case (Text(key), Missing) => if key != "" then Some(Marker(key, "")) else None
    case _ => None
  }

  function Classify(p: Reply, prefix: string): Step<Entry, Marker> {
    match p
    case CallFailed => Stop(Failed)
    case NotAPage => Stop(BadPage)
    case Page(_, _, truncated, _, _) =>
      match PageEntries(p, prefix)
      case None => Stop(BadEntry)
      case Some(entries) =>
        if !truncated then Last(entries)
        else
          match NextMarker(p)
          case None => Stop(NoNextMarker)
          case Some(marker) => More(entries, marker)
  }

  /** Reply of list-objects-v2: only keys, and a continuation token. */
  datatype KeysReply =
    | KeysCallFailed
    | NotAKeysPage
    | KeysPage(contents: Collection, truncated: bool, nextToken: Field)

  function CheckKeys(es: seq<RawEntry>, prefix: string): Option<seq<string>> {
    if es == [] then Some([])
    else
      match (es[0], CheckKeys(es[1..], prefix))
      case (RawEntry(Text(key), _), Some(rest)) => if StartsWith(key, prefix) then Some([key] + rest) else None
      case _ => None
  }

  function ClassifyKeys(p: KeysReply, prefix: string): Step<string, string> {
    match p
    case KeysCallFailed => Stop(Failed)
    case NotAKeysPage => Stop(BadPage)
    case KeysPage(Malformed, _, _) => Stop(BadEntry)
    case KeysPage(Entries(contents), truncated, nextToken) =>
      match CheckKeys(contents, prefix)
      case None => Stop(BadEntry)
      case Some(keys) =>
        if !truncated then Last(keys)
        else if nextToken.Text? && nextToken.s != "" then More(keys, nextToken.s)
        else Stop(NoNextMarker)
  }

  function VersionsPager(server: (nat, Option<Marker>) -> Reply, prefix: string): Pager<Entry, Marker> {
    (call: nat, marker: Option<Marker>) => Classify(server(call, marker), prefix)
  }

  function KeysPager(server: (nat, Option<string>) -> KeysReply, prefix: string): Pager<string, string> {
    (call: nat, token: Option<string>) => ClassifyKeys(server(call, token), prefix)
  }

  // ---------------------------------------------------------------- the loop

  /** Every marker that the server can name comes from this finite set. */
  ghost predicate NamesOnly<T(!new), M(!new)>(pager: Pager<T, M>, markers: set<M>) {
    forall call: nat, marker: Option<M> :: pager(call, marker).More? ==> pager(call, marker).marker in markers
  }

  /** The rest of the listing, after `call` calls, with the markers seen so far. */
  ghost function ListFrom<T(!new), M(!new)>(
      pager: Pager<T, M>, call: nat, marker: Option<M>, seen: set<M>, markers: set<M>)
    : Result<seq<T>, ListError>
    requires NamesOnly(pager, markers) && seen <= markers
    decreases |markers - seen|
  {
    match pager(call, marker)
    case Stop(e) => Err(e)
    case Last(entries) => Ok(entries)
    case More(entries, next) =>
      if next in seen then Err(PaginationLoop)
      else
        assert next in markers;
        CardinalityShrinks(markers - (seen + {next}), markers - seen);
        match ListFrom(pager, call + 1, Some(next), seen + {next}, markers)
        case Err(e) => Err(e)
        case Ok(rest) => Ok(entries + rest)
  }

  lemma {:induction false} CardinalityShrinks<T>(a: set<T>, b: set<T>)
    requires a < b
    ensures |a| < |b|
  {
    var x :| x in b && x !in a;
    assert b == (b - {x}) + {x};
    SubsetSize(a, b - {x});
  }

  lemma {:induction false} SubsetSize<T>(a: set<T>, b: set<T>)
    requires a <= b
    ensures |a| <= |b|
  {
    if a != {} {
      var x :| x in a;
      SubsetSize(a - {x}, b - {x});
    }
  }

  /** The shared loop.  The unseen markers are the measure: it ends on every server
      with finitely many of them. */
  method ListPages<T(!new), M(!new, ==)>(pager: Pager<T, M>, ghost markers: set<M>)
    returns (r: Result<seq<T>, ListError>)
    requires NamesOnly(pager, markers)
    ensures r == ListFrom(pager, 0, None, {}, markers)
  {
    var entries: seq<T> := [];
    var marker: Option<M> := None;
    var seen: set<M> := {};
    var call := 0;
    ghost var whole := ListFrom(pager, 0, None, {}, markers);
    assert whole.Ok? ==> entries + whole.value == whole.value;
    while true
      invariant seen <= markers
      invariant match ListFrom(pager, call, marker, seen, markers)
                case Err(e) => whole == Err(e)
                case Ok(rest) => whole == Ok(entries + rest)
      decreases |markers - seen|
    {
      match pager(call, marker)
      case Stop(e) => return Err(e);
      case Last(page) => return Ok(entries + page);
      case More(page, next) =>
        if next in seen {
          return Err(PaginationLoop);
        }
        assert next in markers;
        CardinalityShrinks(markers - (seen + {next}), markers - seen);
        ghost var rest := ListFrom(pager, call + 1, Some(next), seen + {next}, markers);
        assert rest.Ok? ==> entries + (page + rest.value) == entries + page + rest.value;
        entries := entries + page;
        seen := seen + {next};
        marker := Some(next);
        call := call + 1;
    }
  }

  // ---------------------------------------------------------------- what is listed is owned

  ghost predicate PagesSatisfy<T(!new), M(!new)>(pager: Pager<T, M>, owned: T -> bool) {
    forall call: nat, marker: Option<M> ::
      match pager(call, marker)
      case Stop(_) => true
      case Last(entries) => forall e :: e in entries ==> owned(e)
      case More(entries, _) => forall e :: e in entries ==> owned(e)
  }

  lemma {:induction false} ListedSatisfy<T(!new), M(!new)>(
      pager: Pager<T, M>, owned: T -> bool, call: nat, marker: Option<M>, seen: set<M>, markers: set<M>)
    requires NamesOnly(pager, markers) && seen <= markers && PagesSatisfy(pager, owned)
    requires ListFrom(pager, call, marker, seen, markers).Ok?
    ensures forall e :: e in ListFrom(pager, call, marker, seen, markers).value ==> owned(e)
    decreases |markers - seen|
  {
    match pager(call, marker)
    case More(entries, next) =>
      CardinalityShrinks(markers - (seen + {next}), markers - seen);
      ListedSatisfy(pager, owned, call + 1, Some(next), seen + {next}, markers);
    case _ =>
  }

  predicate OwnedBy(e: Entry, prefix: string) {
    StartsWith(e.key, prefix) && e.versionId != ""
  }

  /** Whatever the server sends, every listed version is below the prefix and has a
      version id. */
  lemma ListedVersionsAreOwned(server: (nat, Option<Marker>) -> Reply, prefix: string, markers: set<Marker>)
    requires NamesOnly(VersionsPager(server, prefix), markers)
    ensures var r := ListFrom(VersionsPager(server, prefix), 0, None, {}, markers);
            r.Ok? ==> forall e :: e in r.value ==> OwnedBy(e, prefix)
  {
    var pager := VersionsPager(server, prefix);
    forall call: nat, marker: Option<Marker>
      ensures match pager(call, marker)
              case Stop(_) => true
              case Last(entries) => forall e :: e in entries ==> OwnedBy(e, prefix)
              case More(entries, _) => forall e :: e in entries ==> OwnedBy(e, prefix)
    {
      PageIsOwned(server(call, marker), prefix);
    }
    var owned := (e: Entry) => OwnedBy(e, prefix);
    assert PagesSatisfy(pager, owned);
    if ListFrom(pager, 0, None, {}, markers).Ok? {
      ListedSatisfy(pager, owned, 0, None, {}, markers);
    }
  }

  lemma PageIsOwned(reply: Reply, prefix: string)
    ensures reply.Page? && PageEntries(reply, prefix).Some? ==>
              forall e :: e in PageEntries(reply, prefix).value ==> OwnedBy(e, prefix)
  {
    if reply.Page? && PageEntries(reply, prefix).Some? {
      EntriesAreOwned(reply.versions.entries, Version, prefix);
      EntriesAreOwned(reply.deleteMarkers.entries, DeleteMarker, prefix);
    }
  }

  lemma {:induction false} EntriesAreOwned(es: seq<RawEntry>, kind: EntryKind, prefix: string)
    requires CheckEntries(es, kind, prefix).Some?
    ensures forall e :: e in CheckEntries(es, kind, prefix).value ==> OwnedBy(e, prefix)
  {
    if es != [] {
      EntriesAreOwned(es[1..], kind, prefix);
    }
  }

  predicate CameFrom(raw: RawEntry, e: Entry, kind: EntryKind) {
    raw == RawEntry(Text(e.key), Text(e.versionId)) && e.kind == kind
  }

  /** One page is read whole and in order: every version of the reply, then every
      delete marker, and nothing else. */
  lemma PageIsReadWhole(reply: Reply, prefix: string, i: nat)
    requires reply.Page? && PageEntries(reply, prefix).Some?
    ensures var vs, ms := reply.versions.entries, reply.deleteMarkers.entries;
            var out := PageEntries(reply, prefix).value;
            && |out| == |vs| + |ms|
            && (i < |vs| ==> CameFrom(vs[i], out[i], Version))
            && (|vs| <= i < |out| ==> CameFrom(ms[i - |vs|], out[i], DeleteMarker))
  {
    EntriesInOrder(reply.versions.entries, Version, prefix);
    EntriesInOrder(reply.deleteMarkers.entries, DeleteMarker, prefix);
  }

  lemma {:induction false} EntriesInOrder(es: seq<RawEntry>, kind: EntryKind, prefix: string)
    requires CheckEntries(es, kind, prefix).Some?
    ensures |CheckEntries(es, kind, prefix).value| == |es|
    ensures forall i :: 0 <= i < |es| ==> CameFrom(es[i], CheckEntries(es, kind, prefix).value[i], kind)
  {
    if es != [] {
      EntriesInOrder(es[1..], kind, prefix);
      forall i | 0 < i < |es|
        ensures CameFrom(es[i], CheckEntries(es, kind, prefix).value[i], kind)
      {
        assert es[i] == es[1..][i - 1];
      }
    }
  }

  // ---------------------------------------------------------------- completeness

  /** The step that a bucket paging a fixed sequence takes at page i. */
  ghost function PageStep<T, M>(pages: seq<seq<T>>, names: seq<M>, i: nat): Step<T, M>
    requires i < |pages| == |names|
  {
    if i == |pages| - 1 then Last(pages[i]) else More(pages[i], names[i + 1])
  }

  /** The marker that asks for page i. */
  ghost function NameOf<M>(names: seq<M>, i: nat): Option<M>
    requires i < |names|
  {
    if i == 0 then None else Some(names[i])
  }

  ghost predicate Serves<T(!new), M(!new)>(pager: Pager<T, M>, pages: seq<seq<T>>, names: seq<M>, i: nat)
    requires i < |pages| == |names|
  {
    forall call: nat :: pager(call, NameOf(names, i)) == PageStep(pages, names, i)
  }

  /** A bucket that pages a fixed sequence: the request for page i is answered with
      page i, under distinct names, and only the last page is not truncated. */
  ghost predicate PagesFixedSequence<T(!new), M(!new)>(pager: Pager<T, M>, pages: seq<seq<T>>, names: seq<M>) {
    && 0 < |pages| == |names|
    && (forall i, j :: 0 < i < j < |pages| ==> names[i] != names[j])
    && forall i :: 0 <= i < |pages| ==> Serves(pager, pages, names, i)
  }

  function Flatten<T>(pages: seq<seq<T>>): seq<T> {
    if pages == [] then [] else pages[0] + Flatten(pages[1..])
  }

  lemma {:induction false} ListingFromPage<T(!new), M(!new)>(
      pager: Pager<T, M>, pages: seq<seq<T>>, names: seq<M>, i: nat, seen: set<M>, markers: set<M>)
    requires NamesOnly(pager, markers) && seen <= markers
    requires PagesFixedSequence(pager, pages, names) && i < |pages|
    requires forall j :: i < j < |pages| ==> names[j] !in seen
    ensures ListFrom(pager, i, NameOf(names, i), seen, markers) == Ok(Flatten(pages[i..]))
    decreases |pages| - i
  {
    assert Serves(pager, pages, names, i);
    var step := pager(i, NameOf(names, i));
    assert step == PageStep(pages, names, i);
    if i < |pages| - 1 {
      var next := names[i + 1];
      assert step.More? && next in markers;
      ListingFromPage(pager, pages, names, i + 1, seen + {next}, markers);
      assert pages[i..][1..] == pages[i + 1..];
    } else {
      assert pages[i..][1..] == [];
      assert Flatten(pages[i..]) == pages[i] + [] == pages[i];
    }
  }

  /** Against such a bucket the listing is exactly the pages in order. */
  lemma ListingIsComplete<T(!new), M(!new)>(pager: Pager<T, M>, pages: seq<seq<T>>, names: seq<M>, markers: set<M>)
    requires NamesOnly(pager, markers)
    requires PagesFixedSequence(pager, pages, names)
    ensures ListFrom(pager, 0, None, {}, markers) == Ok(Flatten(pages))
  {
    ListingFromPage(pager, pages, names, 0, {}, markers);
    assert pages[0..] == pages;
  }

  // ---------------------------------------------------------------- the loop check is exact

  /** The replies depend on the marker alone. */
  ghost predicate Stateless<T(!new), M(!new)>(pager: Pager<T, M>) {
    forall call: nat, marker: Option<M> :: pager(call, marker) == pager(0, marker)
  }

  /** Following the markers from here, the first `steps` pages are all truncated. */
  ghost predicate KeepsGoing<T, M>(pager: Pager<T, M>, marker: Option<M>, steps: nat)
    decreases steps
  {
    steps == 0 || (pager(0, marker).More? && KeepsGoing(pager, Some(pager(0, marker).marker), steps - 1))
  }

  /** Each of these markers leads to another of them, the current one perhaps excepted. */
  ghost predicate LeadsInside<T, M(!new)>(pager: Pager<T, M>, seen: set<M>, current: Option<M>) {
    forall m :: m in seen && Some(m) != current ==> pager(0, Some(m)).More? && pager(0, Some(m)).marker in seen
  }

  ghost predicate Endures<T, M>(pager: Pager<T, M>, marker: Option<M>, steps: nat) {
    KeepsGoing(pager, marker, steps)
  }

  lemma {:induction false} ClosedSetKeepsGoing<T(!new), M(!new)>(pager: Pager<T, M>, seen: set<M>, m: M, steps: nat)
    requires m in seen && LeadsInside(pager, seen, None)
    ensures Endures(pager, Some(m), steps)
    decreases steps
  {
    if steps > 0 {
      assert pager(0, Some(m)).More?;
      ClosedSetKeepsGoing(pager, seen, pager(0, Some(m)).marker, steps - 1);
    }
  }

  /** The loop error is the loop's own, never an answer of the bucket. */
  ghost predicate NeverClaimsLoop<T(!new), M(!new)>(pager: Pager<T, M>) {
    forall call: nat, marker: Option<M> :: pager(call, marker) != Stop(PaginationLoop)
  }

  /** A listing that ends in the loop error goes on from every page to its end. */
  lemma LoopGoesOn<T(!new), M(!new)>(
      pager: Pager<T, M>, call: nat, marker: Option<M>, seen: set<M>, markers: set<M>)
    returns (next: M)
    requires NamesOnly(pager, markers) && seen <= markers && Stateless(pager) && NeverClaimsLoop(pager)
    requires ListFrom(pager, call, marker, seen, markers) == Err(PaginationLoop)
    ensures pager(0, marker).More? && pager(0, marker).marker == next && next in markers
    ensures next !in seen ==> ListFrom(pager, call + 1, Some(next), seen + {next}, markers) == Err(PaginationLoop)
  {
    assert pager(call, marker) == pager(0, marker) && pager(call, marker) != Stop(PaginationLoop);
    next := pager(call, marker).marker;
  }

  lemma FewerUnseen<M>(seen: set<M>, more: set<M>, next: M, markers: set<M>)
    requires next in markers && next !in seen && more == seen + {next} && seen <= markers
    ensures more <= markers && |markers - more| < |markers - seen|
  {
    CardinalityShrinks(markers - more, markers - seen);
  }

  lemma OneMore<T(!new), M(!new)>(pager: Pager<T, M>, marker: Option<M>, next: M, steps: nat)
    requires pager(0, marker).More? && pager(0, marker).marker == next && Endures(pager, Some(next), steps)
    ensures Endures(pager, marker, steps + 1)
  {
  }

  lemma LeadsOn<T(!new), M(!new)>(pager: Pager<T, M>, seen: set<M>, marker: Option<M>, next: M)
    requires LeadsInside(pager, seen, marker) && pager(0, marker).More? && pager(0, marker).marker == next
    ensures if next in seen then LeadsInside(pager, seen, None) else LeadsInside(pager, seen + {next}, Some(next))
  {
  }

  lemma {:induction false} LoopKeepsGoing<T(!new), M(!new)>(
      pager: Pager<T, M>, call: nat, marker: Option<M>, seen: set<M>, markers: set<M>, steps: nat)
    requires NamesOnly(pager, markers) && seen <= markers && Stateless(pager) && NeverClaimsLoop(pager)
    requires LeadsInside(pager, seen, marker)
    requires ListFrom(pager, call, marker, seen, markers) == Err(PaginationLoop)
    ensures Endures(pager, marker, steps)
    decreases |markers - seen|
  {
    hide *;
    if steps == 0 {
      NoSteps(pager, marker);
    } else {
      var next := LoopGoesOn(pager, call, marker, seen, markers);
      LeadsOn(pager, seen, marker, next);
      if next in seen {
        ClosedSetKeepsGoing(pager, seen, next, steps - 1);
      } else {
        var more := seen + {next};
        FewerUnseen(seen, more, next, markers);
        LoopKeepsGoing(pager, call + 1, Some(next), more, markers, steps - 1);
      }
      OneMore(pager, marker, next, steps - 1);
    }
  }

  lemma NoSteps<T(!new), M(!new)>(pager: Pager<T, M>, marker: Option<M>)
    ensures Endures(pager, marker, 0)
  {
  }

  lemma {:induction false} FewerSteps<T(!new), M(!new)>(pager: Pager<T, M>, marker: Option<M>, more: nat, fewer: nat)
    requires KeepsGoing(pager, marker, more) && fewer <= more
    ensures KeepsGoing(pager, marker, fewer)
    decreases fewer
  {
    if fewer > 0 {
      FewerSteps(pager, Some(pager(0, marker).marker), more - 1, fewer - 1);
    }
  }

  lemma {:induction false} KeepsGoingLoops<T(!new), M(!new)>(
      pager: Pager<T, M>, call: nat, marker: Option<M>, seen: set<M>, markers: set<M>)
    requires NamesOnly(pager, markers) && seen <= markers && Stateless(pager)
    requires KeepsGoing(pager, marker, |markers - seen| + 1)
    ensures ListFrom(pager, call, marker, seen, markers) == Err(PaginationLoop)
    decreases |markers - seen|
  {
    assert pager(call, marker) == pager(0, marker);
    var next := pager(0, marker).marker;
    if next !in seen {
      CardinalityShrinks(markers - (seen + {next}), markers - seen);
      FewerSteps(pager, Some(next), |markers - seen|, |markers - (seen + {next})| + 1);
      KeepsGoingLoops(pager, call + 1, Some(next), seen + {next}, markers);
    }
  }

  ghost predicate NeverEnds<T(!new), M(!new)>(pager: Pager<T, M>) {
    forall steps: nat :: KeepsGoing(pager, None, steps)
  }

  /** On a bucket whose replies depend on the marker alone, the repeated-marker error
      is raised exactly when following the markers would never have ended. */
  lemma LoopCheckIsExact<T(!new), M(!new)>(pager: Pager<T, M>, markers: set<M>)
    requires NamesOnly(pager, markers) && Stateless(pager) && NeverClaimsLoop(pager)
    ensures ListFrom(pager, 0, None, {}, markers) == Err(PaginationLoop) <==> NeverEnds(pager)
  {
    var none: set<M> := {};
    if ListFrom(pager, 0, None, none, markers) == Err(PaginationLoop) {
      assert LeadsInside(pager, none, None);
      forall steps: nat ensures KeepsGoing(pager, None, steps) {
        LoopKeepsGoing(pager, 0, None, none, markers, steps);
        assert Endures(pager, None, steps);
      }
      assert NeverEnds(pager);
    }
    if NeverEnds(pager) {
      assert KeepsGoing(pager, None, |markers - none| + 1);
      KeepsGoingLoops(pager, 0, None, none, markers);
    }
  }

  // ---------------------------------------------------------------- the two listings

  /** list_s3_prefix_versions. */
  method ListPrefixVersions(server: (nat, Option<Marker>) -> Reply, prefix: string, ghost markers: set<Marker>)
    returns (r: Result<seq<Entry>, ListError>)
    requires NamesOnly(VersionsPager(server, prefix), markers)
    ensures r == ListFrom(VersionsPager(server, prefix), 0, None, {}, markers)
    ensures r.Ok? ==> forall e :: e in r.value ==> OwnedBy(e, prefix)
  {
    ListedVersionsAreOwned(server, prefix, markers);
    r := ListPages(VersionsPager(server, prefix), markers);
  }

  /** list_current_s3_prefix_keys. */
  method ListCurrentKeys(server: (nat, Option<string>) -> KeysReply, prefix: string, ghost tokens: set<string>)
    returns (r: Result<seq<string>, ListError>)
    requires NamesOnly(KeysPager(server, prefix), tokens)
    ensures r == ListFrom(KeysPager(server, prefix), 0, None, {}, tokens)
    ensures r.Ok? ==> forall k :: k in r.value ==> StartsWith(k, prefix)
  {
    var pager := KeysPager(server, prefix);
    forall call: nat, token: Option<string>
      ensures match pager(call, token)
              case Stop(_) => true
              case Last(keys) => forall k :: k in keys ==> StartsWith(k, prefix)
              case More(keys, _) => forall k :: k in keys ==> StartsWith(k, prefix)
    {
      KeysPageIsOwned(server(call, token), prefix);
    }
    ghost var owned := (k: string) => StartsWith(k, prefix);
    assert PagesSatisfy(pager, owned);
    if ListFrom(pager, 0, None, {}, tokens).Ok? {
      ListedSatisfy(pager, owned, 0, None, {}, tokens);
    }
    r := ListPages(pager, tokens);
  }

  lemma {:induction false} KeysAreOwned(es: seq<RawEntry>, prefix: string)
    requires CheckKeys(es, prefix).Some?
    ensures forall k :: k in CheckKeys(es, prefix).value ==> StartsWith(k, prefix)
  {
    if es != [] {
      KeysAreOwned(es[1..], prefix);
    }
  }

  lemma KeysPageIsOwned(reply: KeysReply, prefix: string)
    ensures match ClassifyKeys(reply, prefix)
            case Stop(_) => true
            case Last(keys) => forall k :: k in keys ==> StartsWith(k, prefix)
            case More(keys, _) => forall k :: k in keys ==> StartsWith(k, prefix)
  {
    if reply.KeysPage? && reply.contents.Entries? && CheckKeys(reply.contents.entries, prefix).Some? {
      KeysAreOwned(reply.contents.entries, prefix);
    }
  }
}
