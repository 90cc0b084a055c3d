/**
 * The two paginating commands: `search`, which splits the verse gateway's
 * search results into embed pages, and `get_versions`, which splits the list
 * of known translations into pages of 25.
 *
 * Both work by consuming a local collection: `search` deletes every entry it
 * places from the result dictionary, `get_versions` removes every version it
 * lists from its copy of the version list. The methods below do the same to a
 * local sequence, and are proved equal to specification functions; the lemmas
 * that follow the methods state what those functions promise.
 */
module PagedCommands {
  import opened Options
  import opened Text

  const MaxResultsPerPage: nat := 6
  const MaxTextLength: nat := 700
  const MaxSearchPages: nat := 100
  const VersionsPerPage: nat := 25

  /** Versions served by backends other than the gateway, in the order the source lists them. */
  const UnsupportedSearchVersions: seq<string> :=
    ["REV"] + ["BSB", "NHEB", "WBT"] + ["KJVA"] + ["LUT", "LXX", "SLT"]

  /** One search result: the dictionary value under a verse key. The keys are never shown. */
  datatype Hit = Hit(title: string, text: string)

  datatype Field = Field(name: string, value: string, inline: bool)

  /** A Discord embed, without its colour and footer. */
  datatype Embed = Embed(title: string, description: string, fields: seq<Field>)

  /** What a command hands back: `None`, an error text, one embed, or a paged list of embeds. */
  datatype Reply =
    | NoReply
    | ErrText(message: string)
    | InfoEmbed(embed: Embed)
    | InfoPages(pages: seq<Embed>)

  /** The localisation table: top-level strings and the nested `commands` table. */
  datatype Lang = Lang(strings: map<string, string>, commands: map<string, string>)

  /** The strings the unsupported-version reply reads. */
  predicate HasErrorStrings(lang: Lang) {
    "searchNotSupported" in lang.strings && "search" in lang.commands
  }

  /** The strings a search page reads. */
  predicate HasSearchStrings(lang: Lang) {
    "searchResults" in lang.strings && "pageOf" in lang.strings && "nothingFound" in lang.strings
  }

  /** The strings a version page reads. */
  predicate HasVersionStrings(lang: Lang) {
    "pageOf" in lang.strings && "versions" in lang.commands
  }

  // ---------------------------------------------------------------------------
  // Page arithmetic

  /** `math.ceil(n / d)` on natural numbers. */
  function CeilDiv(n: nat, d: nat): (q: nat)
    requires d > 0
    ensures q * d >= n
    ensures q == 0 || (q - 1) * d < n
  {
    (n + d - 1) / d
  }

  /** `total_pages` of `search`: the ceiling of n/6, raised to 1 and capped at 100. */
  function SearchPageCount(n: nat): (t: nat)
    ensures 1 <= t <= MaxSearchPages
    ensures n == 0 ==> t == 1
    ensures 0 < n <= MaxResultsPerPage * MaxSearchPages ==>
              t * MaxResultsPerPage >= n && (t - 1) * MaxResultsPerPage < n
    ensures n > MaxResultsPerPage * MaxSearchPages ==> t == MaxSearchPages
  {
    var t := CeilDiv(n, MaxResultsPerPage);
    if t == 0 then t + 1 else if t > MaxSearchPages then MaxSearchPages else t
  }

  /** The `pageOf` template with `<num>` and `<total>` filled in, as `str` prints them. */
  function PageCounter(template: string, num: nat, total: nat): string {
    ReplaceAll(ReplaceAll(template, "<num>", NatToString(num)), "<total>", NatToString(total))
  }

  // ---------------------------------------------------------------------------
  // Search: specification

  /** An entry short enough to be shown. */
  predicate Listable(h: Hit) {
    |h.text| < MaxTextLength
  }

  /** One pass of the inner loop over a snapshot of the dictionary. */
  datatype Sweep = Sweep(taken: seq<Hit>, kept: seq<Hit>)

  /**
   * The inner loop of `search` over the snapshot `s`: a listable entry is taken
   * while fewer than `cap` have been; everything else stays in the dictionary.
   */
  function Pick(s: seq<Hit>, cap: nat): (p: Sweep)
    ensures |p.taken| <= cap
    ensures |p.taken| + |p.kept| == |s|
    decreases |s|
  {
    if s == [] then Sweep([], [])
    else
      var p := Pick(s[..|s| - 1], cap);
      var h := s[|s| - 1];
      if Listable(h) && |p.taken| < cap then Sweep(p.taken + [h], p.kept)
      else Sweep(p.taken, p.kept + [h])
  }

  /** The listable entries of `s`, in dictionary order. */
  function Shown(s: seq<Hit>): seq<Hit> {
    if s == [] then []
    else Shown(s[..|s| - 1]) + (if Listable(s[|s| - 1]) then [s[|s| - 1]] else [])
  }

  /** The entries of `s` too long to be shown, in dictionary order. */
  function Unshown(s: seq<Hit>): seq<Hit> {
    if s == [] then []
    else Unshown(s[..|s| - 1]) + (if Listable(s[|s| - 1]) then [] else [s[|s| - 1]])
  }

  /** The first `n` elements of `s`, or all of them. */
  function Take<T>(s: seq<T>, n: nat): seq<T> {
    if |s| <= n then s else s[..n]
  }

  /** `s` without its first `n` elements. */
  function Drop<T>(s: seq<T>, n: nat): seq<T> {
    if |s| <= n then [] else s[n..]
  }

  /** The dictionary after `k` pages have been built. */
  function Remaining(s: seq<Hit>, k: nat): seq<Hit> {
    if k == 0 then s else Pick(Remaining(s, k - 1), MaxResultsPerPage).kept
  }

  /** `embed.add_field(name=title, value=text, inline=False)` for each entry in turn. */
  function Fields(hits: seq<Hit>): seq<Field> {
    if hits == [] then []
    else Fields(hits[..|hits| - 1]) + [Field(hits[|hits| - 1].title, hits[|hits| - 1].text, false)]
  }

  function SearchTitle(lang: Lang, query: string): string
    requires HasSearchStrings(lang)
  {
    lang.strings["searchResults"] + " \"" + query + "\""
  }

  function NothingFoundTitle(lang: Lang, query: string): string
    requires HasSearchStrings(lang)
  {
    ReplaceAll(lang.strings["nothingFound"], "<query>", query)
  }

  /** Page `i` of `total`, built from the dictionary `rest` as it stands before that page. */
  function SearchPage(rest: seq<Hit>, i: nat, total: nat, query: string, lang: Lang): Embed
    requires HasSearchStrings(lang)
  {
    if |rest| > 0 then
      Embed(SearchTitle(lang, query), PageCounter(lang.strings["pageOf"], i + 1, total),
            Fields(Pick(rest, MaxResultsPerPage).taken))
    else
      Embed(NothingFoundTitle(lang, query), "", [])
  }

  /** The first `n` pages of a search over `results`, with `total` announced on each. */
  function SearchPages(results: seq<Hit>, n: nat, total: nat, query: string, lang: Lang): (pages: seq<Embed>)
    requires HasSearchStrings(lang)
    ensures |pages| == n
  {
    if n == 0 then []
    else SearchPages(results, n - 1, total, query, lang)
         + [SearchPage(Remaining(results, n - 1), n - 1, total, query, lang)]
  }

  /** The reply of `search` when the gateway answered `found` for a supported version. */
  function SearchReply(version: string, query: string, lang: Lang, found: Option<seq<Hit>>): Reply
    requires version in UnsupportedSearchVersions ==> HasErrorStrings(lang)
    requires version !in UnsupportedSearchVersions && found.Some? ==> HasSearchStrings(lang)
  {
    if version in UnsupportedSearchVersions then
      ErrText(ReplaceAll(lang.strings["searchNotSupported"], "<search>", lang.commands["search"]))
    else if found.None? then NoReply
    else
      var total := SearchPageCount(|found.value|);
      var pages := SearchPages(found.value, total, total, query, lang);
      if |pages| > 1 then InfoPages(pages) else InfoEmbed(pages[0])
  }

  /** Building one more page appends it to those built so far. */
  lemma SearchPagesStep(results: seq<Hit>, i: nat, total: nat, query: string, lang: Lang)
    requires HasSearchStrings(lang)
    ensures SearchPages(results, i + 1, total, query, lang)
            == SearchPages(results, i, total, query, lang) + [SearchPage(Remaining(results, i), i, total, query, lang)]
  {
  }

  lemma {:induction false} SearchPagesAt(results: seq<Hit>, n: nat, total: nat, query: string, lang: Lang, k: nat)
    requires HasSearchStrings(lang)
    requires k < n
    ensures SearchPages(results, n, total, query, lang)[k] == SearchPage(Remaining(results, k), k, total, query, lang)
  {
    var prev := SearchPages(results, n - 1, total, query, lang);
    var last := SearchPage(Remaining(results, n - 1), n - 1, total, query, lang);
    SearchPagesStep(results, n - 1, total, query, lang);
    if k < n - 1 {
      SearchPagesAt(results, n - 1, total, query, lang, k);
      IndexAppended(prev, last, k);
    } else {
      IndexAppended(prev, last, n - 1);
    }
  }

  lemma IndexAppended<T>(s: seq<T>, x: T, k: nat)
    requires k <= |s|
    ensures (s + [x])[k] == if k < |s| then s[k] else x
  {
  }

  // ---------------------------------------------------------------------------
  // Search: the command

  /**
   * `search(version, query, lang)`. `found` is what the gateway's
   * `biblegateway.search(version, query)` returns (`None` for no answer); the
   * source asks the gateway only for a supported version.
   */
  method Search(version: string, query: string, lang: Lang, found: Option<seq<Hit>>) returns (reply: Reply)
    requires version in UnsupportedSearchVersions ==> HasErrorStrings(lang)
    requires version !in UnsupportedSearchVersions && found.Some? ==> HasSearchStrings(lang)
    ensures reply == SearchReply(version, query, lang, found)
    ensures reply.ErrText? <==> version in UnsupportedSearchVersions
    ensures reply.NoReply? <==> version !in UnsupportedSearchVersions && found.None?
  {
    if version !in UnsupportedSearchVersions {
      if found.Some? {
        var results := found.value;
        // The source strips the quotes and throws the result away: titles keep `query`.
        var unquoted := ReplaceAll(query, "\"", "");

        var pages: seq<Embed> := [];
        var total := CeilDiv(|results|, MaxResultsPerPage);
        if total == 0 {
          total := total + 1;
        } else if total > MaxSearchPages {
          total := MaxSearchPages;
        }

        for i := 0 to total
          invariant results == Remaining(found.value, i)
          invariant pages == SearchPages(found.value, i, total, query, lang)
        {
          var embed := Embed(SearchTitle(lang, query), PageCounter(lang.strings["pageOf"], i + 1, total), []);
          if |results| > 0 {
            results, embed := PlaceEntries(results, embed);
          } else {
            embed := embed.(title := NothingFoundTitle(lang, query), description := "");
          }
          SearchPagesStep(found.value, i, total, query, lang);
          pages := pages + [embed];
        }

        if |pages| > 1 {
          reply := InfoPages(pages);
        } else {
          reply := InfoEmbed(pages[0]);
        }
      } else {
        reply := NoReply;
      }
    } else {
      reply := ErrText(ReplaceAll(lang.strings["searchNotSupported"], "<search>", lang.commands["search"]));
    }
  }

  /**
   * The inner loop of `search`: over a snapshot of the dictionary's keys, add
   * each entry shorter than 700 characters to `embed` while it has fewer than
   * six, deleting the entry from the dictionary.
   */
  method PlaceEntries(results: seq<Hit>, embed: Embed) returns (left: seq<Hit>, page: Embed)
    requires embed.fields == []
    ensures left == Pick(results, MaxResultsPerPage).kept
    ensures page == embed.(fields := Fields(Pick(results, MaxResultsPerPage).taken))
  {
    left, page := results, embed;
    var count := 0;
    var snapshot := results;
    ghost var taken: seq<Hit> := [];
    ghost var kept: seq<Hit> := [];
    assert snapshot[..0] == [] && snapshot[0..] == snapshot;
    for j := 0 to |snapshot|
      invariant Pick(snapshot[..j], MaxResultsPerPage) == Sweep(taken, kept)
      invariant count == |taken|
      invariant left == kept + snapshot[j..]
      invariant page == embed.(fields := Fields(taken))
    {
      count, left, page, taken, kept := VisitKey(snapshot, j, count, left, page, taken, kept);
    }
    assert snapshot[..|snapshot|] == snapshot;
  }

  /**
   * One key of the snapshot, as the inner loop of `search` visits it: `taken`
   * and `kept` are the entries placed and left so far.
   */
  method VisitKey(snapshot: seq<Hit>, j: nat, count: nat, left: seq<Hit>, page: Embed,
                  ghost taken: seq<Hit>, ghost kept: seq<Hit>)
    returns (count': nat, left': seq<Hit>, page': Embed, ghost taken': seq<Hit>, ghost kept': seq<Hit>)
    requires j < |snapshot| && Pick(snapshot[..j], MaxResultsPerPage) == Sweep(taken, kept)
    requires count == |taken| && left == kept + snapshot[j..] && page.fields == Fields(taken)
    ensures Pick(snapshot[..j + 1], MaxResultsPerPage) == Sweep(taken', kept')
    ensures count' == |taken'| && left' == kept' + snapshot[j + 1..]
    ensures page' == page.(fields := Fields(taken'))
  {
    var hit := snapshot[j];
    // The two nested tests of the source, neither of which has an `else`.
    if |hit.text| < MaxTextLength && count < MaxResultsPerPage {
      TakeVisited(snapshot, j, taken, kept, MaxResultsPerPage);
      page' := page.(fields := page.fields + [Field(hit.title, hit.text, false)]);
      // `del results[key]`: the entry under the visited key sits at j - count.
      left' := left[..j - count] + left[j - count + 1..];
      count' := count + 1;
      taken', kept' := taken + [hit], kept;
    } else {
      SkipVisited(snapshot, j, taken, kept, MaxResultsPerPage);
      count', left', page' := count, left, page;
      taken', kept' := taken, kept + [hit];
    }
  }

  /** The loop visits a key whose entry it places on the page and deletes. */
  lemma TakeVisited(s: seq<Hit>, j: nat, taken: seq<Hit>, kept: seq<Hit>, cap: nat)
    requires j < |s| && Pick(s[..j], cap) == Sweep(taken, kept)
    requires Listable(s[j]) && |taken| < cap
    ensures Pick(s[..j + 1], cap) == Sweep(taken + [s[j]], kept)
    ensures |kept| == j - |taken|
    ensures Fields(taken + [s[j]]) == Fields(taken) + [Field(s[j].title, s[j].text, false)]
    ensures var d := kept + s[j..]; d[..|kept|] + d[|kept| + 1..] == kept + s[j + 1..]
  {
    PickExtend(s, j, cap);
    FieldsAppend(taken, s[j]);
    DeleteVisited(kept, s[j..]);
    assert s[j..][1..] == s[j + 1..];
  }

  /** The loop visits a key whose entry stays in the dictionary. */
  lemma SkipVisited(s: seq<Hit>, j: nat, taken: seq<Hit>, kept: seq<Hit>, cap: nat)
    requires j < |s| && Pick(s[..j], cap) == Sweep(taken, kept)
    requires !(Listable(s[j]) && |taken| < cap)
    ensures Pick(s[..j + 1], cap) == Sweep(taken, kept + [s[j]])
    ensures kept + s[j..] == (kept + [s[j]]) + s[j + 1..]
  {
    PickExtend(s, j, cap);
    KeepVisited(kept, s[j..]);
    assert s[j..][1..] == s[j + 1..];
  }

  /** One more key of the snapshot, as the inner loop visits it. */
  lemma PickExtend(s: seq<Hit>, j: nat, cap: nat)
    requires j < |s|
    ensures var p := Pick(s[..j], cap);
      Pick(s[..j + 1], cap) ==
        if Listable(s[j]) && |p.taken| < cap then Sweep(p.taken + [s[j]], p.kept)
        else Sweep(p.taken, p.kept + [s[j]])
  {
    assert s[..j + 1][..j] == s[..j];
  }

  lemma FieldsAppend(hits: seq<Hit>, h: Hit)
    ensures Fields(hits + [h]) == Fields(hits) + [Field(h.title, h.text, false)]
  {
    assert (hits + [h])[..|hits|] == hits;
  }

  /** Keeping the entry just after the kept ones moves it to their end. */
  lemma KeepVisited(kept: seq<Hit>, rest: seq<Hit>)
    requires rest != []
    ensures kept + rest == (kept + [rest[0]]) + rest[1..]
  {
    assert rest == [rest[0]] + rest[1..];
  }

  /** Deleting the entry just after the kept ones leaves the kept ones and the unvisited rest. */
  lemma DeleteVisited(kept: seq<Hit>, rest: seq<Hit>)
    requires rest != []
    ensures var d := kept + rest; d[..|kept|] + d[|kept| + 1..] == kept + rest[1..]
  {
    var d := kept + rest;
    assert d[..|kept|] == kept;
    assert d[|kept| + 1..] == rest[1..];
  }

  // ---------------------------------------------------------------------------
  // Search: properties

  /** The entries a sweep takes are the first `cap` listable ones of the snapshot. */
  lemma {:induction false} PickTakesFirstListable(s: seq<Hit>, cap: nat)
    ensures Pick(s, cap).taken == Take(Shown(s), cap)
    ensures Shown(Pick(s, cap).kept) == Drop(Shown(s), cap)
    ensures Unshown(Pick(s, cap).kept) == Unshown(s)
    decreases |s|
  {
    if s != [] {
      var s' := s[..|s| - 1];
      var h := s[|s| - 1];
      PickTakesFirstListable(s', cap);
      var p := Pick(s', cap);
      assert |p.taken| == if |Shown(s')| <= cap then |Shown(s')| else cap;
      ShownOfAppend(p.kept, h);
      if Listable(h) {
        if |p.taken| < cap {
          assert Shown(s) == Shown(s') + [h];
          assert Drop(Shown(s'), cap) == [];
        } else {
          assert Shown(s) == Shown(s') + [h];
          assert Drop(Shown(s), cap) == Drop(Shown(s'), cap) + [h];
          assert Shown(s)[..cap] == Shown(s')[..cap];
        }
      }
    }
  }

  /** Only entries shorter than 700 characters are ever taken. */
  lemma {:induction false} PickTakesListable(s: seq<Hit>, cap: nat)
    ensures forall h | h in Pick(s, cap).taken :: Listable(h)
    decreases |s|
  {
    if s != [] {
      PickTakesListable(s[..|s| - 1], cap);
    }
  }

  /** `Shown` and `Unshown` of a sequence extended by one entry. */
  lemma ShownOfAppend(s: seq<Hit>, h: Hit)
    ensures Shown(s + [h]) == Shown(s) + (if Listable(h) then [h] else [])
    ensures Unshown(s + [h]) == Unshown(s) + (if Listable(h) then [] else [h])
  {
    assert (s + [h])[..|s + [h]| - 1] == s;
  }

  /** A sweep loses nothing and duplicates nothing: taken and kept together are the snapshot. */
  lemma {:induction false} PickConserves(s: seq<Hit>, cap: nat)
    ensures multiset(Pick(s, cap).taken) + multiset(Pick(s, cap).kept) == multiset(s)
    decreases |s|
  {
    if s != [] {
      PickConserves(s[..|s| - 1], cap);
      assert s == s[..|s| - 1] + [s[|s| - 1]];
    }
  }

  /** A dictionary is empty exactly when it has neither listable nor over-long entries. */
  lemma {:induction false} EmptyIffNothingLeft(s: seq<Hit>)
    ensures |Shown(s)| + |Unshown(s)| == |s|
    ensures s == [] <==> Shown(s) == [] && Unshown(s) == []
    decreases |s|
  {
    if s != [] {
      EmptyIffNothingLeft(s[..|s| - 1]);
    }
  }

  /**
   * After `k` pages the dictionary holds the listable entries from the 6k-th on,
   * and every over-long entry: those are never removed.
   */
  lemma {:induction false} RemainingAfter(s: seq<Hit>, k: nat)
    ensures Shown(Remaining(s, k)) == Drop(Shown(s), MaxResultsPerPage * k)
    ensures Unshown(Remaining(s, k)) == Unshown(s)
  {
    if k > 0 {
      RemainingAfter(s, k - 1);
      SweepAfter(Remaining(s, k - 1), Shown(s), Unshown(s), MaxResultsPerPage * (k - 1));
    }
  }

  /** One more sweep of a dictionary whose listable entries are those of `l` from index `m` on. */
  lemma SweepAfter(r: seq<Hit>, l: seq<Hit>, u: seq<Hit>, m: nat)
    requires Shown(r) == Drop(l, m) && Unshown(r) == u
    ensures Shown(Pick(r, MaxResultsPerPage).kept) == Drop(l, m + MaxResultsPerPage)
    ensures Unshown(Pick(r, MaxResultsPerPage).kept) == u
  {
    PickKeeps(r, MaxResultsPerPage);
    DropDrop(l, m, MaxResultsPerPage);
  }

  /** What a sweep leaves behind: the listable entries after the first `cap`, and every over-long one. */
  lemma PickKeeps(s: seq<Hit>, cap: nat)
    ensures Shown(Pick(s, cap).kept) == Drop(Shown(s), cap)
    ensures Unshown(Pick(s, cap).kept) == Unshown(s)
  {
    PickTakesFirstListable(s, cap);
  }

  /** At most `n` elements of `s` starting at index `lo`. */
  function Slice<T>(s: seq<T>, lo: nat, n: nat): seq<T> {
    Take(Drop(s, lo), n)
  }

  /** Page `k` shows the listable entries 6k .. 6k+5 of the results, in order. */
  lemma PageShowsSlice(s: seq<Hit>, k: nat)
    ensures Pick(Remaining(s, k), MaxResultsPerPage).taken
            == Slice(Shown(s), MaxResultsPerPage * k, MaxResultsPerPage)
  {
    RemainingAfter(s, k);
    PickTakesFirstListable(Remaining(s, k), MaxResultsPerPage);
  }

  lemma {:induction false} FieldsShape(hits: seq<Hit>)
    ensures |Fields(hits)| == |hits|
    ensures forall i :: 0 <= i < |hits| ==> Fields(hits)[i] == Field(hits[i].title, hits[i].text, false)
    decreases |hits|
  {
    if hits != [] {
      FieldsShape(hits[..|hits| - 1]);
    }
  }

  /**
   * Every page of a search: it shows at most six entries, each under 700
   * characters, namely the six listable entries 6k .. 6k+5 in dictionary order
   * (so no entry is on two pages); its description is "page k+1 of total"; and
   * it is a "nothing found" page, with an empty description and no fields,
   * exactly when the dictionary is empty by then.
   */
  lemma SearchPageProperties(results: seq<Hit>, total: nat, query: string, lang: Lang, k: nat)
    requires HasSearchStrings(lang)
    requires k < total
    ensures var page := SearchPages(results, total, total, query, lang)[k];
      && |page.fields| <= MaxResultsPerPage
      && (forall f | f in page.fields :: |f.value| < MaxTextLength)
      && page.fields == Fields(Slice(Shown(results), MaxResultsPerPage * k, MaxResultsPerPage))
      && (Remaining(results, k) == [] ==>
            page.title == NothingFoundTitle(lang, query) && page.description == "" && page.fields == [])
      && (Remaining(results, k) != [] ==>
            page.title == lang.strings["searchResults"] + " \"" + query + "\""
            && page.description == PageCounter(lang.strings["pageOf"], k + 1, total))
  {
    PageShowsSlice(results, k);
    var taken := Pick(Remaining(results, k), MaxResultsPerPage).taken;
    SearchPagesAt(results, total, total, query, lang, k);
    FieldsShape(taken);
    PickTakesListable(Remaining(results, k), MaxResultsPerPage);
    forall f | f in Fields(taken) ensures |f.value| < MaxTextLength {
      var i :| 0 <= i < |Fields(taken)| && Fields(taken)[i] == f;
      assert taken[i] in taken;
    }
    if Remaining(results, k) == [] {
      RemainingAfter(results, k);
      EmptyIffNothingLeft(Remaining(results, k));
      assert Fields([]) == [];
    }
  }

  /**
   * The shape of a search reply: the unsupported-version error with its
   * placeholder filled, nothing without a gateway answer, and otherwise exactly
   * `SearchPageCount(n)` pages (between 1 and 100), paged when more than one.
   */
  lemma SearchReplyShape(version: string, query: string, lang: Lang, found: Option<seq<Hit>>)
    requires version in UnsupportedSearchVersions ==> HasErrorStrings(lang)
    requires version !in UnsupportedSearchVersions && found.Some? ==> HasSearchStrings(lang)
    ensures var r := SearchReply(version, query, lang, found);
      && (version in UnsupportedSearchVersions ==>
            r == ErrText(ReplaceAll(lang.strings["searchNotSupported"], "<search>", lang.commands["search"])))
      && (version !in UnsupportedSearchVersions && found.None? ==> r == NoReply)
      && (version !in UnsupportedSearchVersions && found.Some? ==>
            var total := SearchPageCount(|found.value|);
            && 1 <= total <= MaxSearchPages
            && (total > 1 ==> r == InfoPages(SearchPages(found.value, total, total, query, lang))
                              && |r.pages| == total)
            && (total == 1 ==> r == InfoEmbed(SearchPages(found.value, 1, 1, query, lang)[0])))
  {
  }

  /**
   * What a search leaves in the dictionary: the listable entries after the
   * first 6·total, and every over-long entry.
   */
  lemma SearchLeftover(results: seq<Hit>)
    ensures var total := SearchPageCount(|results|);
      var left := Remaining(results, total);
      && Shown(left) == Drop(Shown(results), MaxResultsPerPage * total)
      && Unshown(left) == Unshown(results)
  {
    RemainingAfter(results, SearchPageCount(|results|));
  }

  /** Filling `<num>` leaves a `<total>` placeholder alone. */
  lemma TotalPlaceholderKept(c: string, n: string)
    requires '<' !in c
    ensures ReplaceAll("<total>" + c, "<num>", n) == "<total>" + c
  {
    var suffix := "<total>" + c;
    assert suffix[..5] != "<num>" by { assert suffix[..5][1] == 't'; }
    assert suffix[1..] == "total>" + c;
    assert '<' !in suffix[1..];
    assert [suffix[0]] + suffix[1..] == suffix;
  }

  /** Filling `<num>` in a template with one `<num>`, then one `<total>`, and no other `<`. */
  lemma FillNum(a: string, b: string, c: string, n: string)
    requires '<' !in a && '<' !in b && '<' !in c
    ensures ReplaceAll(a + "<num>" + b + "<total>" + c, "<num>", n) == a + n + (b + "<total>" + c)
  {
    var tail := b + "<total>" + c;
    calc {
      ReplaceAll(a + "<num>" + b + "<total>" + c, "<num>", n);
      { assert a + "<num>" + b + "<total>" + c == a + "<num>" + tail; }
      ReplaceAll(a + "<num>" + tail, "<num>", n);
      { ReplaceAllAt(a, tail, "<num>", n); }
      a + n + ReplaceAll(tail, "<num>", n);
      { assert tail == b + ("<total>" + c); ReplaceAllSkips(b, "<total>" + c, "<num>", n); }
      a + n + (b + ReplaceAll("<total>" + c, "<num>", n));
      { TotalPlaceholderKept(c, n); }
      a + n + (b + ("<total>" + c));
    }
  }

  /** Filling `<total>` in a text with one `<total>` and no other `<`. */
  lemma FillTotal(m: string, c: string, t: string)
    requires '<' !in m && '<' !in c
    ensures ReplaceAll(m + "<total>" + c, "<total>", t) == m + t + c
  {
    ReplaceAllAt(m, c, "<total>", t);
  }

  /** Both placeholders of a template with one `<num>`, then one `<total>`, and no other `<`. */
  lemma FillBoth(a: string, b: string, c: string, n: string, t: string)
    requires '<' !in a && '<' !in b && '<' !in c && '<' !in n
    ensures ReplaceAll(ReplaceAll(a + "<num>" + b + "<total>" + c, "<num>", n), "<total>", t)
            == a + n + b + t + c
  {
    FillNum(a, b, c, n);
    assert a + n + (b + "<total>" + c) == (a + n + b) + "<total>" + c;
    FillTotal(a + n + b, c, t);
  }

  /** Decimal digits contain no `<`. */
  lemma DigitsHaveNoAngle(n: nat)
    ensures '<' !in NatToString(n)
  {
  }

  /** A `pageOf` template with one `<num>` and one `<total>` and no other `<` reads as intended. */
  lemma PageCounterFilled(a: string, b: string, c: string, num: nat, total: nat)
    requires '<' !in a && '<' !in b && '<' !in c
    ensures PageCounter(a + "<num>" + b + "<total>" + c, num, total)
            == a + NatToString(num) + b + NatToString(total) + c
  {
    DigitsHaveNoAngle(num);
    FillBoth(a, b, c, NatToString(num), NatToString(total));
  }

  /**
   * For a template with one `<num>`, then one `<total>`, and no other `<`,
   * two pages of the same command never carry the same counter text.
   */
  lemma PageCounterDetermines(a: string, b: string, c: string, m: nat, n: nat, total: nat)
    requires '<' !in a && '<' !in b && '<' !in c
    requires PageCounter(a + "<num>" + b + "<total>" + c, m, total)
             == PageCounter(a + "<num>" + b + "<total>" + c, n, total)
    ensures m == n
  {
    PageCounterFilled(a, b, c, m, total);
    PageCounterFilled(a, b, c, n, total);
    SameFrame(a, NatToString(m), NatToString(n), b, NatToString(total), c);
    NatToStringInjective(m, n);
  }

  /** Texts that differ only in one slot have the same text in that slot. */
  lemma SameFrame(a: string, x: string, y: string, b: string, u: string, c: string)
    requires a + x + b + u + c == a + y + b + u + c
    ensures x == y
  {
    var t := b + u + c;
    assert a + x + b + u + c == a + x + t && a + y + b + u + c == a + y + t;
    assert (a + x + t)[|a|..|a| + |x|] == x;
    assert (a + y + t)[|a|..|a| + |y|] == y;
  }

  // ---------------------------------------------------------------------------
  // Versions: specification

  /** The versions on page `k`: items 25k .. 25k+24 of the list. */
  function VersionChunk(vs: seq<string>, k: nat): seq<string> {
    Slice(vs, VersionsPerPage * k, VersionsPerPage)
  }

  /** Page `k` of `get_versions`; `total` is the announced page count. */
  function VersionsPage(vs: seq<string>, k: nat, total: nat, prefix: string, lang: Lang): Embed
    requires HasVersionStrings(lang)
  {
    Embed(prefix + lang.commands["versions"] + " - " + PageCounter(lang.strings["pageOf"], k + 1, total),
          Lines(VersionChunk(vs, k)), [])
  }

  /** The first `n` pages of `get_versions`, in order. */
  function VersionsPages(vs: seq<string>, n: nat, total: nat, prefix: string, lang: Lang): (pages: seq<Embed>)
    requires n > 0 ==> HasVersionStrings(lang)
    ensures |pages| == n
  {
    if n == 0 then [] else VersionsPages(vs, n - 1, total, prefix, lang) + [VersionsPage(vs, n - 1, total, prefix, lang)]
  }

  /** The reply of `get_versions` for the version list `vs`. */
  function VersionsReply(vs: seq<string>, prefix: string, lang: Lang): Reply
    requires vs != [] ==> HasVersionStrings(lang)
  {
    var n := CeilDiv(|vs|, VersionsPerPage);
    InfoPages(VersionsPages(vs, n, n, prefix, lang))
  }

  // ---------------------------------------------------------------------------
  // Versions: the command

  /**
   * `get_versions(lang)`. `available` is what `versions.get_versions()` returns
   * and `prefix` is the command prefix `central.cmd_prefix`; `drained` is what
   * that list holds once the command has removed the versions it listed.
   */
  method GetVersions(available: seq<string>, prefix: string, lang: Lang) returns (reply: Reply, drained: seq<string>)
    requires available != [] ==> HasVersionStrings(lang)
    ensures reply == VersionsReply(available, prefix, lang)
    ensures reply.InfoPages?
    ensures drained == []
  {
    var pages: seq<Embed> := [];
    var versions := available;
    var total := CeilDiv(|versions|, VersionsPerPage);
    if total == 0 {
      total := total + 1;
    }

    for i := 0 to total
      invariant versions == Drop(available, VersionsPerPage * i)
      invariant |available| == 0 ==> pages == []
      invariant |available| > 0 ==> pages == VersionsPages(available, i, total, prefix, lang)
    {
      if |versions| > 0 {
        var versionList;
        assert VersionChunk(available, i) == Take(versions, VersionsPerPage);
        versionList, versions := ListVersions(versions);
        DropDrop(available, VersionsPerPage * i, VersionsPerPage);
        var embed := Embed(prefix + lang.commands["versions"] + " - " + PageCounter(lang.strings["pageOf"], i + 1, total),
                           versionList, []);
        VersionsPagesStep(available, i, total, prefix, lang, versionList);
        pages := pages + [embed];
      }
    }
    reply := InfoPages(pages);
    drained := versions;
  }

  /** One more page of `get_versions`, listing the `i`-th chunk. */
  lemma VersionsPagesStep(vs: seq<string>, i: nat, total: nat, prefix: string, lang: Lang, list: string)
    requires HasVersionStrings(lang)
    requires list == Lines(VersionChunk(vs, i))
    ensures VersionsPages(vs, i + 1, total, prefix, lang)
            == VersionsPages(vs, i, total, prefix, lang)
               + [Embed(prefix + lang.commands["versions"] + " - " + PageCounter(lang.strings["pageOf"], i + 1, total),
                        list, [])]
  {
  }

  /**
   * The inner loop of `get_versions`: over a copy of the list, append each
   * version and a newline to the page text while fewer than 25 have been
   * listed, removing it from the list; stop at the 26th.
   */
  method ListVersions(versions: seq<string>) returns (versionList: string, left: seq<string>)
    ensures versionList == Lines(Take(versions, VersionsPerPage))
    ensures left == Drop(versions, VersionsPerPage)
  {
    left := versions;
    var count := 0;
    versionList := "";
    var copy := versions;
    var j := 0;
    while j < |copy|
      invariant 0 <= j <= |copy| && j <= VersionsPerPage
      invariant count == j
      invariant versionList == Lines(copy[..j])
      invariant left == copy[j..]
    {
      if count < VersionsPerPage {
        assert copy[..j + 1][..j] == copy[..j];
        var item := copy[j];
        versionList := versionList + item + "\n";
        count := count + 1;
        left := RemoveFirst(left, item);
        assert copy[j..][1..] == copy[j + 1..];
      } else {
        break;
      }
      j := j + 1;
    }
    assert j == |copy| ==> copy[..j] == copy;
  }

  lemma DropDrop<T>(s: seq<T>, m: nat, n: nat)
    ensures Drop(Drop(s, m), n) == Drop(s, m + n)
  {
  }

  // ---------------------------------------------------------------------------
  // Versions: properties

  /** Concatenating the chunks of the first `n` pages gives the first 25n versions. */
  lemma {:induction false} ChunksConcat(vs: seq<string>, n: nat)
    ensures ConcatChunks(vs, n) == Take(vs, VersionsPerPage * n)
  {
    if n > 0 {
      ChunksConcat(vs, n - 1);
    }
  }

  function ConcatChunks(vs: seq<string>, n: nat): seq<string> {
    if n == 0 then [] else ConcatChunks(vs, n - 1) + VersionChunk(vs, n - 1)
  }

  /**
   * The pages of `get_versions` partition the version list in order: one page
   * per 25 versions (none for an empty list), every page holding between one
   * and 25 of them, and their chunks together giving back the whole list.
   */
  lemma VersionsPartition(vs: seq<string>)
    ensures var n := CeilDiv(|vs|, VersionsPerPage);
      && (vs == [] <==> n == 0)
      && ConcatChunks(vs, n) == vs
      && (forall k :: 0 <= k < n ==> 1 <= |VersionChunk(vs, k)| <= VersionsPerPage)
  {
    var n := CeilDiv(|vs|, VersionsPerPage);
    ChunksConcat(vs, n);
  }

  /** The descriptions of all version pages, one after the other, list every version on its own line. */
  lemma {:induction false} VersionsDescriptions(vs: seq<string>, n: nat, total: nat, prefix: string, lang: Lang)
    requires n > 0 ==> HasVersionStrings(lang)
    ensures Descriptions(VersionsPages(vs, n, total, prefix, lang)) == Lines(ConcatChunks(vs, n))
  {
    if n > 0 {
      VersionsDescriptions(vs, n - 1, total, prefix, lang);
      var pages := VersionsPages(vs, n - 1, total, prefix, lang);
      var page := VersionsPage(vs, n - 1, total, prefix, lang);
      assert (pages + [page])[..|pages + [page]| - 1] == pages;
      LinesAppend(ConcatChunks(vs, n - 1), VersionChunk(vs, n - 1));
    }
  }

  function Descriptions(pages: seq<Embed>): string {
    if pages == [] then "" else Descriptions(pages[..|pages| - 1]) + pages[|pages| - 1].description
  }

  /** Together, the version pages' descriptions are the whole version list, one per line. */
  lemma VersionsReplyListsAll(vs: seq<string>, prefix: string, lang: Lang)
    requires vs != [] ==> HasVersionStrings(lang)
    ensures var r := VersionsReply(vs, prefix, lang);
      && r.InfoPages?
      && |r.pages| == CeilDiv(|vs|, VersionsPerPage)
      && Descriptions(r.pages) == Lines(vs)
      && (vs == [] ==> r.pages == [])
  {
    var n := CeilDiv(|vs|, VersionsPerPage);
    VersionsDescriptions(vs, n, n, prefix, lang);
    VersionsPartition(vs);
  }

  /** Page `k` of the version pages is built from chunk `k`. */
  lemma {:induction false} VersionsPagesAt(vs: seq<string>, n: nat, total: nat, prefix: string, lang: Lang, k: nat)
    requires HasVersionStrings(lang)
    requires k < n
    ensures VersionsPages(vs, n, total, prefix, lang)[k] == VersionsPage(vs, k, total, prefix, lang)
  {
    var prev := VersionsPages(vs, n - 1, total, prefix, lang);
    var last := VersionsPage(vs, n - 1, total, prefix, lang);
    if k < n - 1 {
      VersionsPagesAt(vs, n - 1, total, prefix, lang, k);
      IndexAppended(prev, last, k);
    } else {
      IndexAppended(prev, last, n - 1);
    }
  }

  /**
   * Every page of `get_versions`: page `k` lists versions 25k .. 25k+24, one
   * per line, between one and 25 of them, under the title
   * "<prefix>versions - page k+1 of n", and has no fields.
   */
  lemma VersionsPageProperties(vs: seq<string>, prefix: string, lang: Lang, k: nat)
    requires HasVersionStrings(lang)
    requires k < CeilDiv(|vs|, VersionsPerPage)
    ensures var n := CeilDiv(|vs|, VersionsPerPage);
      var page := VersionsReply(vs, prefix, lang).pages[k];
      && page.description == Lines(VersionChunk(vs, k))
      && 1 <= |VersionChunk(vs, k)| <= VersionsPerPage
      && page.title == prefix + lang.commands["versions"] + " - " + PageCounter(lang.strings["pageOf"], k + 1, n)
      && page.fields == []
  {
    var n := CeilDiv(|vs|, VersionsPerPage);
    VersionsPagesAt(vs, n, n, prefix, lang, k);
    VersionChunkSize(vs, k);
  }

  /** Every announced page has between one and 25 versions. */
  lemma VersionChunkSize(vs: seq<string>, k: nat)
    requires k < CeilDiv(|vs|, VersionsPerPage)
    ensures 1 <= |VersionChunk(vs, k)| <= VersionsPerPage
  {
  }
}
