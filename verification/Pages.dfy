/** The pagination walk of management_page.go. */
module Pages {
  import opened Wrappers

  /** limit None lets the server decide how many items a page takes. */
  datatype PageRequest = PageRequest(offset: int, limit: Option<int>, search: string)

  datatype Page<T> = Page(items: seq<T>, total: int, offset: int, limit: int) {
    /** Whether another page follows this one. */
    predicate HasMore() {
      |items| > 0 && offset + |items| < total
    }
  }

  /** A server's answers, the k-th to the k-th request. */
  type Fetch<!T, !E> = (nat, PageRequest) -> Result<Page<T>, E>

  /** What is left of a list from an offset on. */
  function Tail<T>(all: seq<T>, offset: int): seq<T> {
    if 0 <= offset <= |all| then all[offset..] else []
  }

  /** A page of a list, for this offset: it echoes the offset, and holds the items that follow it, at least one
      while any remains. Its Total may be anything. */
  predicate PageOf<T(==)>(page: Page<T>, all: seq<T>, offset: int) {
    && page.offset == offset
    && page.items <= Tail(all, offset)
    && (page.items == [] ==> Tail(all, offset) == [])
  }

  /** A server whose list has settled by request number from. It may fail. */
  ghost predicate Settles<T(!new), E(!new)>(fetch: Fetch<T, E>, all: seq<T>, from: nat) {
    forall k: nat, request: PageRequest ::
      k >= from && fetch(k, request).Ok? ==> PageOf(fetch(k, request).value, all, request.offset)
  }

  /** A server over a fixed list, for the requests of one walk. */
  ghost predicate Serves<T(!new), E(!new)>(fetch: Fetch<T, E>, all: seq<T>) {
    Settles(fetch, all, 0)
  }

  ghost predicate NeverUndercounts<T(!new), E(!new)>(fetch: Fetch<T, E>, all: seq<T>) {
    forall k: nat, request: PageRequest :: fetch(k, request).Ok? ==> fetch(k, request).value.total >= |all|
  }

  /** Request k was answered with a page that has more, and the next one starts where that page ended. */
  ghost predicate GoesOn<T(!new), E(!new)>(fetch: Fetch<T, E>, sent: seq<PageRequest>, k: nat)
    requires k < |sent| - 1
  {
    var page := fetch(k, sent[k]);
    page.Ok? && page.value.HasMore() && sent[k + 1].offset == page.value.offset + |page.value.items|
  }

  /** A page with items that end below its Total: the walk goes on after such a page and no other. */
  predicate HoldsMoreBelowTotal<T, E>(answer: Result<Page<T>, E>) {
    answer.Ok? && answer.value.items != [] && answer.value.offset + |answer.value.items| < answer.value.total
  }

  predicate Carries(start: PageRequest, request: PageRequest) {
    request.limit == start.limit && request.search == start.search
  }

  /** A walk's requests: each carries the limit and the search of the first, and each goes on from the last. */
  ghost predicate Walk<T(!new), E(!new)>(fetch: Fetch<T, E>, start: PageRequest, sent: seq<PageRequest>) {
    && (sent != [] ==> sent[0] == start)
    && (forall k | 0 <= k < |sent| :: Carries(start, sent[k]))
    && (forall k | 0 <= k < |sent| - 1 :: GoesOn(fetch, sent, k))
  }

  /** The items of an answer, none if it is an error. */
  function Items<T, E>(answer: Result<Page<T>, E>): seq<T> {
    if answer.Ok? then answer.value.items else []
  }

  /** The items of the pages the first k requests were answered with. */
  ghost function Gathered<T(!new), E(!new)>(fetch: Fetch<T, E>, sent: seq<PageRequest>, k: nat): seq<T>
    requires k <= |sent|
  {
    if k == 0 then [] else Gathered(fetch, sent, k - 1) + Items(fetch(k - 1, sent[k - 1]))
  }

  lemma {:induction false} GatheredIsStable<T(!new), E(!new)>(fetch: Fetch<T, E>, sent: seq<PageRequest>,
                                                              more: PageRequest, k: nat)
    requires k <= |sent|
    ensures Gathered(fetch, sent + [more], k) == Gathered(fetch, sent, k)
  {
    if k > 0 {
      GatheredIsStable(fetch, sent, more, k - 1);
    }
  }

  lemma {:induction false} GatheredWasServed<T(!new), E(!new)>(fetch: Fetch<T, E>, sent: seq<PageRequest>, n: nat,
                                                               x: T) returns (k: nat)
    requires n <= |sent| && x in Gathered(fetch, sent, n)
    ensures k < n && fetch(k, sent[k]).Ok? && x in fetch(k, sent[k]).value.items
  {
    if x in Items(fetch(n - 1, sent[n - 1])) {
      k := n - 1;
    } else {
      k := GatheredWasServed(fetch, sent, n - 1, x);
    }
  }

  /** What a walk brings: it is no longer than the list lets it be; over a fixed list its items are the beginning
      of what remains from the start offset on, all of it if it ran to a page that has no more and no Total was
      too small. */
  ghost predicate Gathers<T(!new), E(!new)>(fetch: Fetch<T, E>, all: seq<T>, from: nat, start: PageRequest,
                                            sent: seq<PageRequest>)
    requires sent != []
  {
    var last := fetch(|sent| - 1, sent[|sent| - 1]);
    && |sent| <= from + |all| + 1
    && (from == 0 ==>
        |sent| <= |Tail(all, start.offset)| + 1 && Gathered(fetch, sent, |sent|) <= Tail(all, start.offset))
    && (from == 0 && last.Ok? && !last.value.HasMore() && NeverUndercounts(fetch, all)
        ==> Gathered(fetch, sent, |sent|) == Tail(all, start.offset))
  }

  /** collectPages: the items of every page from the start offset on. The walk goes on exactly while a page
      has more, and ends within one request more than there are items once the list has settled. Over a fixed
      list it returns a prefix of what remains, all of it when no Total is too small. */
  method CollectPages<T(!new), E(!new)>(start: PageRequest, fetch: Fetch<T, E>, ghost all: seq<T>, ghost from: nat)
    returns (result: Result<seq<T>, E>, sent: seq<PageRequest>)
    requires Settles(fetch, all, from)
    ensures sent != [] && Walk(fetch, start, sent)
    ensures var last := fetch(|sent| - 1, sent[|sent| - 1]);
            if result.Ok? then last.Ok? && !last.value.HasMore() else last == Err(result.error)
    ensures forall k | 0 <= k < |sent| - 1 :: HoldsMoreBelowTotal(fetch(k, sent[k]))
    ensures result.Ok? ==> !HoldsMoreBelowTotal(fetch(|sent| - 1, sent[|sent| - 1]))
    ensures result.Ok? ==> result.value == Gathered(fetch, sent, |sent|)
    ensures Gathers(fetch, all, from, start, sent)
  {
    var request := start;
    var out: seq<T> := [];
    sent := [];
    while true
      invariant Walk(fetch, start, sent + [request]) && out == Gathered(fetch, sent + [request], |sent|)
      decreases from + |all| - |sent|
    {
      WalkIsShort(fetch, all, from, start, sent + [request]);
      var answer := fetch(|sent|, request);
      sent := sent + [request];
      forall k | 0 <= k < |sent| - 1 ensures HoldsMoreBelowTotal(fetch(k, sent[k])) {
        assert GoesOn(fetch, sent, k);
      }
      if answer.Err? {
        return Err(answer.error), sent;
      }
      var page := answer.value;
      out := out + page.items;
      var next := page.offset + |page.items|;
      if |page.items| == 0 || next >= page.total {
        return Ok(out), sent;
      }
      request := PageRequest(next, request.limit, request.search);
      WalkGoesOn(fetch, start, sent, request);
      GatheredIsStable(fetch, sent, request, |sent|);
    }
  }

  function Left<T>(all: seq<T>, offset: int): nat {
    |Tail(all, offset)|
  }

  /** A page that holds anything leaves less to ask for. */
  lemma PageAdvances<T>(page: Page<T>, all: seq<T>, offset: int)
    requires PageOf(page, all, offset) && page.items != []
    ensures Left(all, page.offset + |page.items|) < Left(all, offset)
  {
  }

  /** Once the list has settled, every request but the last was answered with something. */
  lemma {:induction false} WalkMovesOn<T(!new), E(!new)>(fetch: Fetch<T, E>, all: seq<T>, from: nat, start: PageRequest,
                                                         sent: seq<PageRequest>, k: nat)
    requires Settles(fetch, all, from) && Walk(fetch, start, sent) && k < |sent|
    ensures k <= from || k + Left(all, sent[k].offset) <= from + |all|
  {
    if k > from {
      WalkMovesOn(fetch, all, from, start, sent, k - 1);
      assert GoesOn(fetch, sent, k - 1);
      PageAdvances(fetch(k - 1, sent[k - 1]).value, all, sent[k - 1].offset);
    }
  }

  /** Over a fixed list, what the requests before the last brought is the beginning of what remained. */
  lemma {:induction false} WalkCollects<T(!new), E(!new)>(fetch: Fetch<T, E>, all: seq<T>, start: PageRequest,
                                                          sent: seq<PageRequest>, k: nat)
    requires Serves(fetch, all) && Walk(fetch, start, sent) && k < |sent|
    ensures k <= |Gathered(fetch, sent, k)| && Collected(all, start.offset, sent[k].offset, Gathered(fetch, sent, k))
  {
    if k > 0 {
      WalkCollects(fetch, all, start, sent, k - 1);
      assert GoesOn(fetch, sent, k - 1);
      PageAdds(fetch(k - 1, sent[k - 1]).value, all, start.offset, sent[k - 1].offset, Gathered(fetch, sent, k - 1));
    }
  }

  /** Over a fixed list a walk is short, and brings the beginning of what remained, or all of it. */
  lemma FixedListWalk<T(!new), E(!new)>(fetch: Fetch<T, E>, all: seq<T>, start: PageRequest, sent: seq<PageRequest>)
    requires Serves(fetch, all) && Walk(fetch, start, sent) && sent != []
    ensures |sent| <= |Tail(all, start.offset)| + 1 && Gathered(fetch, sent, |sent|) <= Tail(all, start.offset)
    ensures var last := fetch(|sent| - 1, sent[|sent| - 1]);
            last.Ok? && !last.value.HasMore() && NeverUndercounts(fetch, all) ==>
                Gathered(fetch, sent, |sent|) == Tail(all, start.offset)
  {
    var k := |sent| - 1;
    WalkCollects(fetch, all, start, sent, k);
    if fetch(k, sent[k]).Ok? {
      PageAdds(fetch(k, sent[k]).value, all, start.offset, sent[k].offset, Gathered(fetch, sent, k));
    } else {
      assert Gathered(fetch, sent, k) + [] == Gathered(fetch, sent, k);
    }
  }

  lemma WalkIsShort<T(!new), E(!new)>(fetch: Fetch<T, E>, all: seq<T>, from: nat, start: PageRequest,
                                      sent: seq<PageRequest>)
    requires Settles(fetch, all, from) && Walk(fetch, start, sent) && sent != []
    ensures Gathers(fetch, all, from, start, sent)
  {
    WalkMovesOn(fetch, all, from, start, sent, |sent| - 1);
    if from == 0 {
      FixedListWalk(fetch, all, start, sent);
    }
  }

  /** Between pages: what was collected is the beginning of what remained, and the next request asks for what
      follows it. */
  predicate Collected<T(==)>(all: seq<T>, start: int, next: int, out: seq<T>) {
    next == start + |out| && out <= Tail(all, start)
  }

  lemma TailDropped<T>(all: seq<T>, offset: int, n: nat)
    requires n <= |Tail(all, offset)|
    ensures Tail(all, offset + n) == Tail(all, offset)[n..]
  {
    if n > 0 {
      assert all[offset..][n..] == all[offset + n..];
    }
  }

  lemma ExtendPrefix<T>(whole: seq<T>, out: seq<T>, items: seq<T>)
    requires out <= whole && items <= whole[|out|..]
    ensures out + items <= whole
  {
    assert whole == out + whole[|out|..];
    assert whole[..|out| + |items|] == out + items;
  }

  /** What a page adds: it keeps the beginning a beginning, and ends the list if it was last and its Total was not
      too small. */
  lemma PageAdds<T>(page: Page<T>, all: seq<T>, start: int, offset: int, out: seq<T>)
    requires Collected(all, start, offset, out) && PageOf(page, all, offset)
    ensures Collected(all, start, page.offset + |page.items|, out + page.items)
    ensures page.total >= |all| && !page.HasMore() ==> out + page.items == Tail(all, start)
  {
    TailDropped(all, start, |out|);
    ExtendPrefix(Tail(all, start), out, page.items);
    if page.total >= |all| && !page.HasMore() {
      assert page.items == Tail(all, offset);
      assert Tail(all, start) == out + Tail(all, start)[|out|..];
    }
  }

  lemma WalkGoesOn<T(!new), E(!new)>(fetch: Fetch<T, E>, start: PageRequest, sent: seq<PageRequest>, next: PageRequest)
    requires sent != [] && Walk(fetch, start, sent) && Carries(start, next)
    requires var last := fetch(|sent| - 1, sent[|sent| - 1]);
             last.Ok? && last.value.HasMore() && next.offset == last.value.offset + |last.value.items|
    ensures Walk(fetch, start, sent + [next])
  {
    var more := sent + [next];
    forall k | 0 <= k < |more| - 1 ensures GoesOn(fetch, more, k) {
      assert more[k] == sent[k];
      assert k < |sent| - 1 ==> GoesOn(fetch, sent, k) && more[k + 1] == sent[k + 1];
    }
  }

  /** What strings.TrimSpace trims: the characters of Unicode's White_Space property. */
  predicate Blank(c: char) {
    || '\U{9}' <= c <= '\U{D}' || c == ' ' || c == '\U{85}' || c == '\U{A0}' || c == '\U{1680}'
    || '\U{2000}' <= c <= '\U{200A}' || c == '\U{2028}' || c == '\U{2029}' || c == '\U{202F}'
    || c == '\U{205F}' || c == '\U{3000}'
  }

  /** normalizeSearch: the term without leading and trailing blanks. */
  function NormalizeSearch(term: string): (r: string)
    ensures |r| <= |term| && (r != "" ==> !Blank(r[0]) && !Blank(r[|r| - 1]))
  {
    if term == "" then ""
    else if Blank(term[0]) then NormalizeSearch(term[1..])
    else if Blank(term[|term| - 1]) then NormalizeSearch(term[..|term| - 1])
    else term
  }

  /** Trimming takes off a blank beginning and a blank end, and no more. */
  lemma {:induction false} NormalizeSearchTrims(term: string) returns (i: nat, j: nat)
    ensures i <= j <= |term| && NormalizeSearch(term) == term[i..j]
    ensures forall k: nat | k < i || j <= k < |term| :: Blank(term[k])
  {
    i, j := 0, |term|;
    if term != "" && Blank(term[0]) {
      i, j := TrimsFromFront(term);
    } else if term != "" && Blank(term[|term| - 1]) {
      i, j := NormalizeSearchTrims(term[..|term| - 1]);
      assert term[..|term| - 1][i..j] == term[i..j];
    }
  }

  lemma {:induction false} TrimsFromFront(term: string) returns (i: nat, j: nat)
    requires term != "" && Blank(term[0])
    ensures i <= j <= |term| && NormalizeSearch(term) == term[i..j]
    ensures forall k: nat | k < i || j <= k < |term| :: Blank(term[k])
    decreases term, 0
  {
    var rest := term[1..];
    var from, upTo := NormalizeSearchTrims(rest);
    i, j := from + 1, upTo + 1;
    assert rest[from..upTo] == term[i..j];
    forall k: nat | k < i || j <= k < |term| ensures Blank(term[k]) {
      assert k > 0 ==> term[k] == rest[k - 1];
    }
  }

  /** By their code points. */
  lemma BlanksAreWhiteSpace(c: char)
    ensures Blank(c) <==>
            c as int in {9, 10, 11, 12, 13, 32, 0x85, 0xA0, 0x1680, 0x2000, 0x2001, 0x2002, 0x2003, 0x2004,
                                       0x2005, 0x2006, 0x2007, 0x2008, 0x2009, 0x200A, 0x2028, 0x2029, 0x202F, 0x205F,
                                       0x3000}
  {
  }

  predicate AllBlank(s: string) {
    forall c | c in s :: Blank(c)
  }

  /** A term searches for nothing exactly when it is all blanks. */
  lemma {:induction false} BlankTermIsNoSearch(term: string)
    ensures NormalizeSearch(term) == "" <==> AllBlank(term)
  {
    if term != "" {
      if Blank(term[0]) {
        BlankTermIsNoSearch(term[1..]);
        assert term == [term[0]] + term[1..];
      } else if Blank(term[|term| - 1]) {
        BlankTermIsNoSearch(term[..|term| - 1]);
        assert term == term[..|term| - 1] + [term[|term| - 1]];
      }
    }
  }
}
