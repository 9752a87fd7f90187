/** The two S3 listings over the replies of the server themselves: what a page must look
like, what it names as its successor, and that every page is listed. */
module PagedReplies {
  import opened Wrappers
  import opened PagedListing

  // ---------------------------------------------------------------- object versions

  /** A proper entry of a version listing. */
  predicate Proper(e: RawEntry, prefix: string) {
    e.RawEntry? && e.key.Text? && e.versionId.Text? && StartsWith(e.key.s, prefix) && e.versionId.s != ""
  }

  ghost predicate AllProper(es: seq<RawEntry>, prefix: string) {
    forall i :: 0 <= i < |es| ==> Proper(es[i], prefix)
  }

  /** The entries as the listing reports them. */
  function Reported(es: seq<RawEntry>, kind: EntryKind, prefix: string): (r: seq<Entry>)
    requires AllProper(es, prefix)
  {
    seq(|es|, i requires 0 <= i < |es| => Entry(kind, es[i].key.s, es[i].versionId.s))
  }

  lemma {:induction false} CheckIsExact(es: seq<RawEntry>, kind: EntryKind, prefix: string)
    ensures CheckEntries(es, kind, prefix).Some? <==> AllProper(es, prefix)
    ensures AllProper(es, prefix) ==> CheckEntries(es, kind, prefix) == Some(Reported(es, kind, prefix))
  {
    if es != [] {
      CheckIsExact(es[1..], kind, prefix);
      assert CheckEntry(es[0], kind, prefix).Some? <==> Proper(es[0], prefix);
      if AllProper(es[1..], prefix) && Proper(es[0], prefix) {
        forall i | 0 <= i < |es|
          ensures Proper(es[i], prefix)
        {
          assert i > 0 ==> es[i] == es[1..][i - 1];
        }
        assert Reported(es, kind, prefix)
            == [Entry(kind, es[0].key.s, es[0].versionId.s)] + Reported(es[1..], kind, prefix);
      } else if AllProper(es, prefix) {
        forall i | 0 <= i < |es| - 1
          ensures Proper(es[1..][i], prefix)
        {
          assert es[1..][i] == es[i + 1];
        }
      }
    }
  }

  /** A page of two proper collections. */
  ghost predicate ProperPage(p: Reply, prefix: string) {
    && p.Page? && p.versions.Entries? && p.deleteMarkers.Entries?
    && AllProper(p.versions.entries, prefix) && AllProper(p.deleteMarkers.entries, prefix)
  }

  ghost function Contents(p: Reply, prefix: string): seq<Entry>
    requires ProperPage(p, prefix)
  {
    Reported(p.versions.entries, Version, prefix) + Reported(p.deleteMarkers.entries, DeleteMarker, prefix)
  }

  /** The page names this marker: its key, and its version or none. */
  ghost predicate Names(p: Reply, m: Marker) {
    && p.Page? && m.key != "" && p.nextKey == Text(m.key)
    && (p.nextVersion == Text(m.version) || (p.nextVersion == Missing && m.version == ""))
  }

  /** What the loop makes of one reply, in every case. */
  lemma PageIsExact(p: Reply, prefix: string)
    ensures Classify(p, prefix) == Stop(Failed) <==> p == CallFailed
    ensures Classify(p, prefix) == Stop(BadPage) <==> p == NotAPage
    ensures Classify(p, prefix) == Stop(BadEntry) <==> p.Page? && !ProperPage(p, prefix)
    ensures Classify(p, prefix) == Stop(NoNextMarker) <==>
              ProperPage(p, prefix) && p.truncated && forall m: Marker :: !Names(p, m)
    ensures forall entries :: Classify(p, prefix) == Last(entries) <==>
              ProperPage(p, prefix) && !p.truncated && entries == Contents(p, prefix)
    ensures forall entries, m: Marker :: Classify(p, prefix) == More(entries, m) <==>
              ProperPage(p, prefix) && p.truncated && entries == Contents(p, prefix) && Names(p, m)
  {
    if p.Page? {
      if p.versions.Entries? {
        CheckIsExact(p.versions.entries, Version, prefix);
      }
      if p.deleteMarkers.Entries? {
        CheckIsExact(p.deleteMarkers.entries, DeleteMarker, prefix);
      }
      NextMarkerIsNamed(p);
    }
  }

  lemma NextMarkerIsNamed(p: Reply)
    requires p.Page?
    ensures forall m: Marker :: NextMarker(p) == Some(m) <==> Names(p, m)
  {
  }

  /** A server that answers the request for page i with page i: truncated unless it is
      the last, and naming the next one. */
  ghost predicate ServesPages(
      server: (nat, Option<Marker>) -> Reply, prefix: string, pages: seq<Reply>, names: seq<Marker>) {
    && 0 < |pages| == |names| && (forall i, j :: 0 < i < j < |names| ==> names[i] != names[j])
    && (forall i :: 0 <= i < |pages| ==> ProperPage(pages[i], prefix) && (pages[i].truncated <==> i < |pages| - 1))
    && (forall i :: 0 <= i < |pages| - 1 ==> Names(pages[i], names[i + 1]))
    && (forall i: nat, call: nat :: i < |pages| ==> server(call, NameOf(names, i)) == pages[i])
  }

  /** Everything that the pages hold, in order. */
  ghost function Everything(pages: seq<Reply>, prefix: string): seq<seq<Entry>>
    requires forall i :: 0 <= i < |pages| ==> ProperPage(pages[i], prefix)
  {
    seq(|pages|, i requires 0 <= i < |pages| => Contents(pages[i], prefix))
  }

  /** The listing is complete: against such a server it returns, page by page, the
      versions and then the delete markers of every page. */
  lemma VersionsAreAllListed(
      server: (nat, Option<Marker>) -> Reply, prefix: string, pages: seq<Reply>, names: seq<Marker>,
      markers: set<Marker>)
    requires NamesOnly(VersionsPager(server, prefix), markers) && ServesPages(server, prefix, pages, names)
    ensures ListFrom(VersionsPager(server, prefix), 0, None, {}, markers) == Ok(Flatten(Everything(pages, prefix)))
  {
    var pager, contents := VersionsPager(server, prefix), Everything(pages, prefix);
    forall i: nat | i < |pages|
      ensures Serves(pager, contents, names, i)
    {
      forall call: nat
        ensures pager(call, NameOf(names, i)) == PageStep(contents, names, i)
      {
        assert server(call, NameOf(names, i)) == pages[i];
        PageIsExact(pages[i], prefix);
      }
    }
    ListingIsComplete(pager, contents, names, markers);
  }

  // ---------------------------------------------------------------- current keys

  predicate ProperKey(e: RawEntry, prefix: string) {
    e.RawEntry? && e.key.Text? && StartsWith(e.key.s, prefix)
  }

  ghost predicate AllKeys(es: seq<RawEntry>, prefix: string) {
    forall i :: 0 <= i < |es| ==> ProperKey(es[i], prefix)
  }

  function ReportedKeys(es: seq<RawEntry>, prefix: string): seq<string>
    requires AllKeys(es, prefix)
  {
    seq(|es|, i requires 0 <= i < |es| => es[i].key.s)
  }

  lemma {:induction false} CheckKeysIsExact(es: seq<RawEntry>, prefix: string)
    ensures CheckKeys(es, prefix).Some? <==> AllKeys(es, prefix)
    ensures AllKeys(es, prefix) ==> CheckKeys(es, prefix) == Some(ReportedKeys(es, prefix))
  {
    if es != [] {
      CheckKeysIsExact(es[1..], prefix);
      if AllKeys(es[1..], prefix) && ProperKey(es[0], prefix) {
        forall i | 0 <= i < |es|
          ensures ProperKey(es[i], prefix)
        {
          assert i > 0 ==> es[i] == es[1..][i - 1];
        }
        assert ReportedKeys(es, prefix) == [es[0].key.s] + ReportedKeys(es[1..], prefix);
      } else if AllKeys(es, prefix) {
        forall i | 0 <= i < |es| - 1
          ensures ProperKey(es[1..][i], prefix)
        {
          assert es[1..][i] == es[i + 1];
        }
      }
    }
  }

  ghost predicate ProperKeysPage(p: KeysReply, prefix: string) {
    p.KeysPage? && p.contents.Entries? && AllKeys(p.contents.entries, prefix)
  }

  ghost function KeysIn(p: KeysReply, prefix: string): seq<string>
    requires ProperKeysPage(p, prefix)
  {
    ReportedKeys(p.contents.entries, prefix)
  }

  ghost predicate NamesToken(p: KeysReply, token: string) {
    p.KeysPage? && token != "" && p.nextToken == Text(token)
  }

  /** What the loop makes of one reply, in every case. */
  lemma KeysPageIsExact(p: KeysReply, prefix: string)
    ensures ClassifyKeys(p, prefix) == Stop(Failed) <==> p == KeysCallFailed
    ensures ClassifyKeys(p, prefix) == Stop(BadPage) <==> p == NotAKeysPage
    ensures ClassifyKeys(p, prefix) == Stop(BadEntry) <==> p.KeysPage? && !ProperKeysPage(p, prefix)
    ensures ClassifyKeys(p, prefix) == Stop(NoNextMarker) <==>
              ProperKeysPage(p, prefix) && p.truncated && forall token :: !NamesToken(p, token)
    ensures forall keys :: ClassifyKeys(p, prefix) == Last(keys) <==>
              ProperKeysPage(p, prefix) && !p.truncated && keys == KeysIn(p, prefix)
    ensures forall keys, token :: ClassifyKeys(p, prefix) == More(keys, token) <==>
              ProperKeysPage(p, prefix) && p.truncated && keys == KeysIn(p, prefix) && NamesToken(p, token)
  {
    if p.KeysPage? && p.contents.Entries? {
      CheckKeysIsExact(p.contents.entries, prefix);
      assert p.nextToken.Text? && p.nextToken.s != "" ==> NamesToken(p, p.nextToken.s);
    }
  }

  ghost predicate ServesKeys(
      server: (nat, Option<string>) -> KeysReply, prefix: string, pages: seq<KeysReply>, names: seq<string>) {
    && 0 < |pages| == |names| && (forall i, j :: 0 < i < j < |names| ==> names[i] != names[j])
    && (forall i :: 0 <= i < |pages| ==> ProperKeysPage(pages[i], prefix) && (pages[i].truncated <==> i < |pages| - 1))
    && (forall i :: 0 <= i < |pages| - 1 ==> NamesToken(pages[i], names[i + 1]))
    && (forall i: nat, call: nat :: i < |pages| ==> server(call, NameOf(names, i)) == pages[i])
  }

  ghost function EveryKey(pages: seq<KeysReply>, prefix: string): seq<seq<string>>
    requires forall i :: 0 <= i < |pages| ==> ProperKeysPage(pages[i], prefix)
  {
    seq(|pages|, i requires 0 <= i < |pages| => KeysIn(pages[i], prefix))
  }

  /** The same for the current keys. */
  lemma KeysAreAllListed(
      server: (nat, Option<string>) -> KeysReply, prefix: string, pages: seq<KeysReply>, names: seq<string>,
      tokens: set<string>)
    requires NamesOnly(KeysPager(server, prefix), tokens) && ServesKeys(server, prefix, pages, names)
    ensures ListFrom(KeysPager(server, prefix), 0, None, {}, tokens) == Ok(Flatten(EveryKey(pages, prefix)))
  {
    var pager, contents := KeysPager(server, prefix), EveryKey(pages, prefix);
    forall i: nat | i < |pages|
      ensures Serves(pager, contents, names, i)
    {
      forall call: nat
        ensures pager(call, NameOf(names, i)) == PageStep(contents, names, i)
      {
        assert server(call, NameOf(names, i)) == pages[i];
        KeysPageIsExact(pages[i], prefix);
      }
    }
    ListingIsComplete(pager, contents, names, tokens);
  }
}
