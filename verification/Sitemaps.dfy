/** The sitemap expansion of a crawl (`_follow_sitemaps`, api/app/workflows/crawl.py): a queue of files,
    every one vetted before it is fetched, within bounds of number, depth and redirects. */
module Sitemaps {
  import opened Common

  type Url = string

  const MAX_SITEMAP_FILES := 20
  const MAX_SITEMAP_INDEX_DEPTH := 2
  const MAX_SITEMAP_REDIRECTS := 3

  datatype File = Redirect(location: Option<Url>) | Index(locs: seq<Url>) | UrlSet(locs: seq<Url>) | Unreadable

  /** A file waiting in the queue, or fetched. */
  datatype Entry = Entry(url: Url, depth: nat, hops: nat)

  /** The world: what a fetch of the n-th file finds, given how many entries it may list; which URLs the
      vetting before it lets through, which may change its mind; and whether the crawl has halted. */
  datatype World = World(files: (nat, Url, nat) -> File, vet: (nat, seq<Url>) -> seq<Url>, halted: nat -> bool)

  /** A sitemap lists no more entries than it was asked for. */
  ghost predicate Contract(w: World) {
    forall n, url, max :: w.files(n, url, max).UrlSet? ==> |w.files(n, url, max).locs| <= max
  }

  predicate WithinBounds(e: Entry) {
    e.depth <= MAX_SITEMAP_INDEX_DEPTH && e.hops <= MAX_SITEMAP_REDIRECTS
  }

  function Entries(urls: seq<Url>, depth: nat, hops: nat): seq<Entry> {
    seq(|urls|, i requires 0 <= i < |urls| => Entry(urls[i], depth, hops))
  }

  /** The j-th file fetched names another, and the vetting after it lets that through. A redirect keeps the
      depth and costs a hop; an index costs a level and forgets the hops. */
  ghost predicate Leads(w: World, j: nat, from: Entry, file: File, to: Entry) {
    || (file.Redirect? && file.location.Some? && to.url in w.vet(j + 1, [file.location.value])
        && to.depth == from.depth && to.hops == from.hops + 1)
    || (file.Index? && to.url in w.vet(j + 1, file.locs) && to.depth == from.depth + 1 && to.hops == 0)
  }

  /** Where an entry comes from: the sitemaps discovered, or a file fetched before; vetted either way. */
  ghost predicate Comes(w: World, found: seq<Url>, fetched: seq<Entry>, files: seq<File>, e: Entry)
    requires |files| == |fetched|
  {
    (e.url in w.vet(0, found) && e.depth == 0 && e.hops == 0) || exists j :: 0 <= j < |fetched| && Leads(w, j, fetched[j], files[j], e)
  }

  ghost predicate AllCome(w: World, found: seq<Url>, fetched: seq<Entry>, files: seq<File>, q: seq<Entry>)
    requires |files| == |fetched|
  {
    forall e :: e in q ==> Comes(w, found, fetched, files, e) && WithinBounds(e)
  }

  /** No file within the bounds is forgotten. */
  ghost predicate NoneForgotten(w: World, fetched: seq<Entry>, files: seq<File>, rest: seq<Entry>)
    requires |files| == |fetched|
  {
    forall j, e :: 0 <= j < |fetched| && Leads(w, j, fetched[j], files[j], e) && WithinBounds(e) ==> e in fetched || e in rest
  }

  lemma StillRemembered(w: World, fetched: seq<Entry>, files: seq<File>, queue: seq<Entry>, file: File, more: seq<Entry>)
    requires |files| == |fetched| && queue != [] && NoneForgotten(w, fetched, files, queue)
    requires forall c :: c in more <==> Leads(w, |fetched|, queue[0], file, c) && WithinBounds(c)
    ensures NoneForgotten(w, fetched + [queue[0]], files + [file], queue[1..] + more)
  {
    hide Leads;
    var g, f := fetched + [queue[0]], files + [file];
    forall j, e | 0 <= j < |g| && Leads(w, j, g[j], f[j], e) && WithinBounds(e)
      ensures e in g || e in queue[1..] + more
    {
      if j < |fetched| {
        assert Leads(w, j, fetched[j], files[j], e);
      }
    }
  }

  lemma StillCome(w: World, found: seq<Url>, fetched: seq<Entry>, files: seq<File>, q: seq<Entry>, e: Entry, file: File)
    requires |files| == |fetched| && AllCome(w, found, fetched, files, q)
    ensures AllCome(w, found, fetched + [e], files + [file], q)
  {
    forall x | x in q ensures Comes(w, found, fetched + [e], files + [file], x) {
      if j :| 0 <= j < |fetched| && Leads(w, j, fetched[j], files[j], x) {
        assert (fetched + [e])[j] == fetched[j] && (files + [file])[j] == files[j];
      }
    }
  }

  lemma ChildrenCome(w: World, found: seq<Url>, fetched: seq<Entry>, files: seq<File>, q: seq<Entry>)
    requires |files| == |fetched| > 0
    requires forall e :: e in q ==> Leads(w, |fetched| - 1, fetched[|fetched| - 1], files[|files| - 1], e) && WithinBounds(e)
    ensures AllCome(w, found, fetched, files, q)
  {
  }

  /** The entries of the files that list pages. */
  function Listed(files: seq<File>): seq<Url> {
    if files == [] then []
    else Listed(files[..|files| - 1]) + if files[|files| - 1].UrlSet? then files[|files| - 1].locs else []
  }

  lemma {:induction false} ListedAre(files: seq<File>, u: Url)
    ensures u in Listed(files) <==> exists i :: 0 <= i < |files| && files[i].UrlSet? && u in files[i].locs
  {
    if files != [] {
      var front := files[..|files| - 1];
      ListedAre(front, u);
      assert forall i :: 0 <= i < |front| ==> front[i] == files[i];
    }
  }

  /** Where the j-th file leads, in order. */
  function Follow(w: World, j: nat, e: Entry, file: File): seq<Entry> {
    if file.Redirect? && file.location.Some? && e.hops < MAX_SITEMAP_REDIRECTS then
      Entries(w.vet(j + 1, [file.location.value]), e.depth, e.hops + 1)
    else if file.Index? && e.depth < MAX_SITEMAP_INDEX_DEPTH then Entries(w.vet(j + 1, file.locs), e.depth + 1, 0)
    else []
  }

  /** Everything that was ever to be read, first come first served: the sitemaps discovered, then where each
      file fetched leads. */
  function Agenda(w: World, found: seq<Url>, fetched: seq<Entry>, files: seq<File>): seq<Entry>
    requires |files| == |fetched|
  {
    if fetched == [] then Entries(w.vet(0, found), 0, 0)
    else
      var n := |fetched| - 1;
      Agenda(w, found, fetched[..n], files[..n]) + Follow(w, n, fetched[n], files[n])
  }

  /** Every file is the answer to its own turn, asked for no more entries than are still wanted. */
  ghost predicate Answers(w: World, fetched: seq<Entry>, files: seq<File>, maxPages: nat)
    requires |files| == |fetched|
  {
    forall i :: 0 <= i < |files| ==> files[i] == w.files(i, fetched[i].url, Max(0, maxPages - |Listed(files[..i])|))
  }

  /** Whatever the site answers: it ends; at most 20 files are fetched, each vetted and reached within two
      levels of index and three redirects in a row from a sitemap discovered; the URLs that go to admission
      are those the files list, at most `maxPages` in all; and a file within the bounds stays unread only if the
      crawl was halted or the files or the pages ran out. */
  method FollowSitemaps(w: World, found: seq<Url>, maxPages: nat)
    returns (fetched: seq<Entry>, files: seq<File>, admitted: seq<Url>, unread: seq<Entry>, halted: bool)
    requires Contract(w)
    ensures |fetched| == |files| <= MAX_SITEMAP_FILES && AllCome(w, found, fetched, files, fetched)
    ensures admitted == Listed(files) && |admitted| <= maxPages
    ensures NoneForgotten(w, fetched, files, unread)
    ensures forall u :: u in w.vet(0, found) ==> Entry(u, 0, 0) in fetched + unread
    ensures unread != [] ==> halted || |fetched| == MAX_SITEMAP_FILES || |admitted| == maxPages
    ensures halted ==> w.halted(|fetched|)
    ensures forall i :: 0 <= i < |fetched| ==> !w.halted(i)
    ensures fetched + unread == Agenda(w, found, fetched, files)
    ensures Answers(w, fetched, files, maxPages)
    ensures forall u :: u in admitted <==> exists i :: 0 <= i < |files| && files[i].UrlSet? && u in files[i].locs
  {
    hide Comes, Leads, Follow, NoneForgotten, AllCome, Agenda, Answers, Listed, InOrder, WithinBounds;
    var queue := Entries(w.vet(0, found), 0, 0);
    fetched, files, admitted, halted := [], [], [], false;
    OrderBegins(w, found, maxPages);
    while queue != [] && |fetched| < MAX_SITEMAP_FILES && |admitted| < maxPages
      invariant |fetched| == |files| <= MAX_SITEMAP_FILES && |admitted| <= maxPages && admitted == Listed(files)
      invariant InOrder(w, found, fetched, files, queue, maxPages)
      invariant forall i :: 0 <= i < |fetched| ==> !w.halted(i)
      decreases MAX_SITEMAP_FILES - |fetched|
    {
      if w.halted(|fetched|) {
        AllListed(files);
        OrderMeans(w, found, fetched, files, queue, maxPages);
        return fetched, files, admitted, queue, true;
      }
      var e := queue[0];
      var file := w.files(|fetched|, e.url, maxPages - |admitted|);
      Bounded(w, found, fetched, files, queue, maxPages);
      var more := Children(w, |fetched|, e, file);
      OrderKept(w, found, fetched, files, queue, file, more, maxPages);
      queue, fetched, files := queue[1..] + more, fetched + [e], files + [file];
      if file.UrlSet? {
        admitted := admitted + file.locs;
      }
    }
    unread := queue;
    AllListed(files);
    OrderMeans(w, found, fetched, files, queue, maxPages);
  }

  /** All that holds of the files fetched and the queue between two turns. */
  ghost predicate InOrder(w: World, found: seq<Url>, fetched: seq<Entry>, files: seq<File>, queue: seq<Entry>, maxPages: nat)
    requires |files| == |fetched|
  {
    && AllCome(w, found, fetched, files, queue) && AllCome(w, found, fetched, files, fetched)
    && NoneForgotten(w, fetched, files, queue)
    && (forall u :: u in w.vet(0, found) ==> Entry(u, 0, 0) in fetched + queue)
    && fetched + queue == Agenda(w, found, fetched, files)
    && Answers(w, fetched, files, maxPages)
  }

  lemma OrderMeans(w: World, found: seq<Url>, fetched: seq<Entry>, files: seq<File>, queue: seq<Entry>, maxPages: nat)
    requires |files| == |fetched| && InOrder(w, found, fetched, files, queue, maxPages)
    ensures AllCome(w, found, fetched, files, fetched) && NoneForgotten(w, fetched, files, queue)
    ensures forall u :: u in w.vet(0, found) ==> Entry(u, 0, 0) in fetched + queue
    ensures fetched + queue == Agenda(w, found, fetched, files) && Answers(w, fetched, files, maxPages)
  {
  }

  lemma Bounded(w: World, found: seq<Url>, fetched: seq<Entry>, files: seq<File>, queue: seq<Entry>, maxPages: nat)
    requires |files| == |fetched| && queue != [] && InOrder(w, found, fetched, files, queue, maxPages)
    ensures WithinBounds(queue[0])
  {
    SomeOf(w, found, fetched, files, queue);
  }

  lemma OrderBegins(w: World, found: seq<Url>, maxPages: nat)
    ensures InOrder(w, found, [], [], Entries(w.vet(0, found), 0, 0), maxPages) && Listed([]) == []
  {
    hide AllCome, Agenda, Answers, NoneForgotten;
    EntriesAre();
    RootsCome(w, found);
    Start(w, found, maxPages);
    assert [] + Entries(w.vet(0, found), 0, 0) == Entries(w.vet(0, found), 0, 0);
  }

  lemma OrderKept(w: World, found: seq<Url>, fetched: seq<Entry>, files: seq<File>, queue: seq<Entry>, file: File,
                  more: seq<Entry>, maxPages: nat)
    requires |files| == |fetched| && queue != [] && InOrder(w, found, fetched, files, queue, maxPages)
    requires |Listed(files)| <= maxPages && file == w.files(|fetched|, queue[0].url, maxPages - |Listed(files)|)
    requires more == Follow(w, |fetched|, queue[0], file)
    requires forall c :: c in more <==> Leads(w, |fetched|, queue[0], file, c) && WithinBounds(c)
    ensures InOrder(w, found, fetched + [queue[0]], files + [file], queue[1..] + more, maxPages)
    ensures Listed(files + [file]) == Listed(files) + if file.UrlSet? then file.locs else []
  {
    hide Comes, Leads, Follow, NoneForgotten, AllCome, Agenda, Answers, Listed, WithinBounds;
    var e := queue[0];
    SomeOf(w, found, fetched, files, queue);
    AllOf(w, found, fetched, files, fetched, [e]);
    StillCome(w, found, fetched, files, queue[1..], e, file);
    StillCome(w, found, fetched, files, fetched + [e], e, file);
    StillRemembered(w, fetched, files, queue, file, more);
    ListedGrows(w, fetched, files, e, file, maxPages);
    AgendaGrows(w, found, fetched, files, queue, file, more);
    ChildrenCome(w, found, fetched + [e], files + [file], more);
    AllOf(w, found, fetched + [e], files + [file], queue[1..], more);
    assert fetched + queue == fetched + [e] + queue[1..];
  }

  lemma AllListed(files: seq<File>)
    ensures forall u :: u in Listed(files) <==> exists i :: 0 <= i < |files| && files[i].UrlSet? && u in files[i].locs
  {
    forall u ensures u in Listed(files) <==> exists i :: 0 <= i < |files| && files[i].UrlSet? && u in files[i].locs {
      ListedAre(files, u);
    }
  }

  lemma Start(w: World, found: seq<Url>, maxPages: nat)
    ensures NoneForgotten(w, [], [], Entries(w.vet(0, found), 0, 0)) && Answers(w, [], [], maxPages)
    ensures Agenda(w, found, [], []) == Entries(w.vet(0, found), 0, 0) && Listed([]) == []
  {
  }

  lemma ListedGrows(w: World, fetched: seq<Entry>, files: seq<File>, e: Entry, file: File, maxPages: nat)
    requires |files| == |fetched| && Answers(w, fetched, files, maxPages) && |Listed(files)| <= maxPages
    requires file == w.files(|fetched|, e.url, maxPages - |Listed(files)|)
    ensures Answers(w, fetched + [e], files + [file], maxPages)
    ensures Listed(files + [file]) == Listed(files) + if file.UrlSet? then file.locs else []
  {
    var g, f := fetched + [e], files + [file];
    assert f[..|files|] == files;
    assert forall i :: 0 <= i < |files| ==> f[..i] == files[..i];
  }

  lemma AgendaGrows(w: World, found: seq<Url>, fetched: seq<Entry>, files: seq<File>, queue: seq<Entry>, file: File,
                    more: seq<Entry>)
    requires |files| == |fetched| && queue != [] && fetched + queue == Agenda(w, found, fetched, files)
    requires more == Follow(w, |fetched|, queue[0], file)
    ensures fetched + [queue[0]] + (queue[1..] + more) ==
            Agenda(w, found, fetched + [queue[0]], files + [file])
  {
    hide Follow;
    assert (fetched + [queue[0]])[..|fetched|] == fetched && (files + [file])[..|files|] == files;
    assert fetched + [queue[0]] + queue[1..] == fetched + queue;
  }

  lemma AllOf(w: World, found: seq<Url>, fetched: seq<Entry>, files: seq<File>, q: seq<Entry>, more: seq<Entry>)
    requires |files| == |fetched| && AllCome(w, found, fetched, files, q) && AllCome(w, found, fetched, files, more)
    ensures AllCome(w, found, fetched, files, q + more)
  {
    hide Comes;
  }

  lemma SomeOf(w: World, found: seq<Url>, fetched: seq<Entry>, files: seq<File>, q: seq<Entry>)
    requires |files| == |fetched| && q != [] && AllCome(w, found, fetched, files, q)
    ensures AllCome(w, found, fetched, files, q[1..]) && AllCome(w, found, fetched, files, [q[0]]) && WithinBounds(q[0])
  {
    hide Comes;
  }

  lemma RootsCome(w: World, found: seq<Url>)
    ensures AllCome(w, found, [], [], Entries(w.vet(0, found), 0, 0)) && AllCome(w, found, [], [], [])
  {
  }

  lemma EntriesAre()
    ensures forall urls: seq<Url>, d: nat, h: nat, c: Entry ::
              c in Entries(urls, d, h) <==> c.url in urls && c.depth == d && c.hops == h
  {
    forall urls: seq<Url>, d: nat, h: nat, c: Entry | c.url in urls && c.depth == d && c.hops == h
      ensures c in Entries(urls, d, h)
    {
      var i :| 0 <= i < |urls| && urls[i] == c.url;
      assert Entries(urls, d, h)[i] == c;
    }
  }

  /** The files a file leads to, vetted; none past the bounds. */
  method Children(w: World, j: nat, e: Entry, file: File) returns (more: seq<Entry>)
    requires WithinBounds(e)
    ensures forall c :: c in more <==> Leads(w, j, e, file, c) && WithinBounds(c)
    ensures more == Follow(w, j, e, file)
    // A redirect costs a hop, at most three in a row; an index a level, at most two; nothing else leads on.
    ensures file.Redirect? && file.location.Some? ==> forall c ::
              c in more <==> c.url in w.vet(j + 1, [file.location.value]) && c.depth == e.depth && c.hops == e.hops + 1 <= 3
    ensures file.Index? ==> forall c ::
              c in more <==> c.url in w.vet(j + 1, file.locs) && c.depth == e.depth + 1 <= 2 && c.hops == 0
    ensures !(file.Redirect? && file.location.Some?) && !file.Index? ==> more == []
  {
    EntriesAre();
    if file.Redirect? && file.location.Some? && e.hops < MAX_SITEMAP_REDIRECTS {
      more := Entries(w.vet(j + 1, [file.location.value]), e.depth, e.hops + 1);
    } else if file.Index? && e.depth < MAX_SITEMAP_INDEX_DEPTH {
      more := Entries(w.vet(j + 1, file.locs), e.depth + 1, 0);
    } else {
      more := [];
    }
  }
}
