// Scrollback: paging an append-only log, and the tail carried by an attach snapshot.
module Scrollback {
  import opened Framing

  const MAX_CHUNK_SIZE: nat := 256 * 1024

  function CapLimit(requested: nat): nat {
    if requested < MAX_CHUNK_SIZE then requested else MAX_CHUNK_SIZE
  }

  function SliceScrollback(log: bytes, offset: nat, limit: nat): (page: (bytes, bool))
    ensures offset <= |log| ==> log[..offset] + page.0 <= log
    ensures page.1 <==> offset + |page.0| >= |log|
    ensures |page.0| <= limit
    ensures !page.1 ==> |page.0| == limit
  {
    if offset >= |log| then ([], true)
    else
      var end := if offset + limit < |log| then offset + limit else |log|;
      (log[offset..end], end >= |log|)
  }

  // ---------------------------------------------------------------- paging a growing log

  // One request of a paging client: the log as the daemon holds it then, and the limit asked.
  datatype Request = Request(log: bytes, limit: nat)

  // Output only ever appends to the log.
  predicate AppendOnly(requests: seq<Request>) {
    forall i, j | 0 <= i <= j < |requests| :: requests[i].log <= requests[j].log
  }

  // Pages until a reply is marked last or the requests run out. `pages` counts the replies.
  method Page(requests: seq<Request>) returns (collected: bytes, isLast: bool, pages: nat)
    requires AppendOnly(requests)
    ensures pages <= |requests|
    ensures pages > 0 ==> collected <= requests[pages - 1].log
    ensures isLast ==> pages > 0 && collected == requests[pages - 1].log
    ensures !isLast ==> pages == |requests|
    ensures (collected, isLast, pages) == Paged(requests, |requests|)
  {
    collected, isLast, pages := [], false, 0;
    var offset := 0;
    while pages < |requests|
      invariant pages <= |requests| && offset == |collected|
      invariant pages > 0 ==> collected <= requests[pages - 1].log
      invariant pages == 0 ==> collected == []
      invariant !isLast
      invariant (collected, isLast, pages) == Paged(requests, pages)
    {
      var request := requests[pages];
      var (data, last) := SliceScrollback(request.log, offset, CapLimit(request.limit));
      collected := collected + data;
      offset := offset + |data|;
      pages := pages + 1;
      if last {
        isLast := true;
        PagingStops(requests, pages, |requests|);
        return;
      }
    }
  }

  // The same loop as a function of the first n requests.
  function Paged(requests: seq<Request>, n: nat): (bytes, bool, nat)
    requires n <= |requests|
  {
    if n == 0 then ([], false, 0)
    else
      var (collected, isLast, pages) := Paged(requests, n - 1);
      if isLast then (collected, isLast, pages)
      else
        var (data, last) := SliceScrollback(requests[n - 1].log, |collected|, CapLimit(requests[n - 1].limit));
        (collected + data, last, pages + 1)
  }

  lemma {:induction false} PagingStops(requests: seq<Request>, n: nat, m: nat)
    requires n <= m <= |requests| && Paged(requests, n).1
    ensures Paged(requests, m) == Paged(requests, n)
    decreases m
  {
    if n < m {
      PagingStops(requests, n, m - 1);
    }
  }

  // ---------------------------------------------------------------- how many pages

  // max(1, ceil(n / limit)).
  function PageCount(n: nat, limit: nat): nat
    requires limit > 0
  {
    if n == 0 then 1 else (n + limit - 1) / limit
  }

  function Fixed(log: bytes, limit: nat, n: nat): seq<Request> {
    seq(n, _ => Request(log, limit))
  }

  // While k pages fall short of the end, they hold exactly the first k * limit bytes.
  lemma {:induction false} FixedLogProgress(log: bytes, limit: nat, n: nat, k: nat)
    requires k <= n && (k == 0 || k * CapLimit(limit) < |log|)
    ensures k * CapLimit(limit) <= |log|
    ensures Paged(Fixed(log, limit, n), k) == (log[..k * CapLimit(limit)], false, k)
    decreases k
  {
    var cap := CapLimit(limit);
    if k > 0 {
      var before := (k - 1) * cap;
      assert k * cap == before + cap;
      FixedLogProgress(log, limit, n, k - 1);
      assert SliceScrollback(log, before, cap) == (log[before..k * cap], false);
      assert log[..before] + log[before..k * cap] == log[..k * cap];
    }
  }

  // The k-th page is the last when k limits reach the end and k - 1 did not.
  lemma LastPage(log: bytes, limit: nat, n: nat, k: nat, before: nat)
    requires 1 <= k <= n && before == (k - 1) * CapLimit(limit)
    requires (k == 1 || before < |log|) && |log| <= before + CapLimit(limit)
    ensures Paged(Fixed(log, limit, n), k) == (log, true, k)
  {
    FixedLogProgress(log, limit, n, k - 1);
    var (data, last) := SliceScrollback(log, before, CapLimit(limit));
    assert before <= |log| && data == log[before..] && last;
    assert log[..before] + log[before..] == log;
  }

  // Pages after the last change nothing.
  lemma EndsAt(log: bytes, limit: nat, n: nat, k: nat, before: nat)
    requires 1 <= k <= n && before == (k - 1) * CapLimit(limit)
    requires (k == 1 || before < |log|) && |log| <= before + CapLimit(limit)
    ensures Paged(Fixed(log, limit, n), n) == (log, true, k)
  {
    LastPage(log, limit, n, k, before);
    PagingStops(Fixed(log, limit, n), k, n);
  }

  lemma CeilingBounds(n: nat, limit: nat, k: nat)
    requires limit > 0 && k == PageCount(n, limit)
    ensures k >= 1 && (k - 1) * limit <= n <= (k - 1) * limit + limit
    ensures k == 1 || (k - 1) * limit < n
  {
    if n > 0 {
      var q, r := (n + limit - 1) / limit, (n + limit - 1) % limit;
      assert n + limit - 1 == limit * q + r;
      assert (q - 1) * limit == limit * q - limit;
    }
  }

  // Paging a log of n bytes with a positive limit, of which no more than 256 KiB are
  // granted, ends with the whole log at page max(1, ceil(n / limit)) and not before.
  lemma FixedLogPageCount(log: bytes, limit: nat, n: nat)
    requires var granted := if limit < 262_144 then limit else 262_144;
             limit > 0 && n >= PageCount(|log|, granted)
    ensures var granted := if limit < 262_144 then limit else 262_144;
            Paged(Fixed(log, limit, n), n) == (log, true, PageCount(|log|, granted))
  {
    var k := PageCount(|log|, CapLimit(limit));
    CeilingBounds(|log|, CapLimit(limit), k);
    EndsAt(log, limit, n, k, (k - 1) * CapLimit(limit));
  }

  // With a limit of zero a non-empty log is never finished, however often it is asked for.
  lemma {:induction false} ZeroLimitNeverEnds(log: bytes, n: nat, k: nat)
    requires log != [] && k <= n
    ensures Paged(Fixed(log, 0, n), k) == ([], false, k)
  {
    if k > 0 {
      ZeroLimitNeverEnds(log, n, k - 1);
    }
  }

  // ---------------------------------------------------------------- the snapshot tail

  function TruncateScrollback(data: bytes, limit: nat): (bytes, bool) {
    if |data| <= limit then (data, true) else (data[|data| - limit..], false)
  }

  // The completeness flag a pane snapshot carries.
  predicate SnapshotComplete(tail: bytes, totalScrollbackBytes: nat) {
    |tail| >= totalScrollbackBytes
  }

  // The flag computed by truncation and the flag computed from the snapshot's lengths
  // agree, and either says exactly that the tail is the whole log.
  lemma CompletenessFlagsAgree(log: bytes, limit: nat)
    ensures var (tail, complete) := TruncateScrollback(log, limit);
            && SnapshotComplete(tail, |log|) == complete
            && (complete <==> tail == log)
            && |tail| == (if |log| < limit then |log| else limit)
  {
  }

  // A snapshot taken of `log` and pages fetched later, while output keeps arriving,
  // rebuild `log`: the bytes before the tail come from the pages, the others from the tail.
  lemma PagesAndTailRebuild(log: bytes, tailLimit: nat, requests: seq<Request>, n: nat)
    requires AppendOnly(requests) && n <= |requests|
    requires forall i | 0 <= i < |requests| :: log <= requests[i].log
    requires var (tail, _) := TruncateScrollback(log, tailLimit); |Paged(requests, n).0| >= |log| - |tail|
    ensures var (tail, _) := TruncateScrollback(log, tailLimit);
            Paged(requests, n).0[..|log| - |tail|] + tail == log
  {
    var (tail, _) := TruncateScrollback(log, tailLimit);
    PagedIsPrefix(requests, n);
    var collected := Paged(requests, n).0;
    var missing := |log| - |tail|;
    assert tail == log[missing..];
    if n > 0 {
      var latest := requests[n - 1].log;
      assert collected <= latest && log <= latest;
      assert collected[..missing] == latest[..missing] == log[..missing];
    }
  }

  lemma {:induction false} PagedIsPrefix(requests: seq<Request>, n: nat)
    requires AppendOnly(requests) && n <= |requests|
    ensures n == 0 ==> Paged(requests, n).0 == []
    ensures n > 0 ==> Paged(requests, n).0 <= requests[n - 1].log
  {
    if n > 1 {
      PagedIsPrefix(requests, n - 1);
    }
  }
}
