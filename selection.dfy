/** Image selection (`listImageKeys`): walk a paginated listing of a folder,
    keep from each page the `.jpg` objects whose LastModified lies in the
    window, sort that page's survivors by LastModified and append their keys.

    A listing is the sequence of responses the object store gives to the
    successive requests of one call; a request beyond the end of that
    sequence fails like a failed request. */
module Selection {
  import opened Common
  import opened Text

  /** One entry of a listing page: the object's key and its LastModified time. */
  datatype ObjectSummary = ObjectSummary(key: string, lastModified: int)

  /** The closed time window `[start, end]`. */
  datatype Window = Window(start: int, end: int)

  /** The response to one listObjectsV2 request. */
  datatype ListResponse =
    | Listed(contents: seq<ObjectSummary>, nextToken: Option<string>)
    | ListFailed

  predicate InWindow(o: ObjectSummary, w: Window) {
    w.start <= o.lastModified && o.lastModified <= w.end
  }

  /** An object the job keeps: inside the window, with a `.jpg` key. */
  predicate Qualifies(o: ObjectSummary, w: Window) {
    InWindow(o, w) && EndsWith(o.key, ".jpg")
  }

  /** The loop goes on while the continuation token is truthy: present and not
      the empty string. */
  predicate HasMore(token: Option<string>) {
    token.Some? && token.value != ""
  }

  // ---------------------------------------------------------------------------
  // The per-page pipeline: filter, stable sort by LastModified, keys

  /** The qualifying objects of a page, in listing order. */
  function Qualifying(contents: seq<ObjectSummary>, w: Window): (r: seq<ObjectSummary>)
    ensures forall o <- r :: o in contents && Qualifies(o, w)
    ensures forall o <- contents :: Qualifies(o, w) ==> o in r
  {
    if contents == [] then []
    else
      (if Qualifies(contents[0], w) then [contents[0]] else []) + Qualifying(contents[1..], w)
  }

  /** `q` is the subsequence of `c` at the strictly increasing positions
      `idx`, and a position of `c` is among them exactly when its object
      qualifies. */
  predicate FilterPositions(c: seq<ObjectSummary>, q: seq<ObjectSummary>, idx: seq<nat>, w: Window) {
    |idx| == |q| &&
    (forall k :: 0 <= k < |idx| ==> idx[k] < |c| && q[k] == c[idx[k]]) &&
    (forall k, l :: 0 <= k < l < |idx| ==> idx[k] < idx[l]) &&
    (forall j :: 0 <= j < |c| ==> (Qualifies(c[j], w) <==> j in idx))
  }

  function Shifted(idx: seq<nat>): (r: seq<nat>)
    ensures |r| == |idx| && forall k :: 0 <= k < |idx| ==> r[k] == idx[k] + 1
  {
    seq(|idx|, k requires 0 <= k < |idx| => idx[k] + 1)
  }

  lemma ConsPositions(x: ObjectSummary, c: seq<ObjectSummary>, q: seq<ObjectSummary>, idx: seq<nat>, w: Window)
    requires FilterPositions(c, q, idx, w)
    ensures Qualifies(x, w) ==> FilterPositions([x] + c, [x] + q, [0] + Shifted(idx), w)
    ensures !Qualifies(x, w) ==> FilterPositions([x] + c, q, Shifted(idx), w)
  {
    ShiftedMembers(idx);
    if Qualifies(x, w) {
      ConsKept(x, c, q, idx, w);
    } else {
      ConsDropped(x, c, q, idx, w);
    }
  }

  lemma ShiftedMembers(idx: seq<nat>)
    ensures forall j :: j in Shifted(idx) <==> j > 0 && j - 1 in idx
  {
    var sh := Shifted(idx);
    forall j ensures j in sh <==> j > 0 && j - 1 in idx {
      if j in sh {
        var k :| 0 <= k < |sh| && sh[k] == j;
        assert idx[k] == j - 1;
      }
      if j > 0 && j - 1 in idx {
        var k :| 0 <= k < |idx| && idx[k] == j - 1;
        assert sh[k] == j;
      }
    }
  }

  lemma ConsKept(x: ObjectSummary, c: seq<ObjectSummary>, q: seq<ObjectSummary>, idx: seq<nat>, w: Window)
    requires FilterPositions(c, q, idx, w) && Qualifies(x, w)
    requires forall j :: j in Shifted(idx) <==> j > 0 && j - 1 in idx
    ensures FilterPositions([x] + c, [x] + q, [0] + Shifted(idx), w)
  {
    var c', q', idx' := [x] + c, [x] + q, [0] + Shifted(idx);
    forall k | 1 <= k < |idx'| ensures idx'[k] < |c'| && q'[k] == c'[idx'[k]] {
      assert idx'[k] == idx[k - 1] + 1 && q'[k] == q[k - 1];
    }
    forall j | 0 <= j < |c'| ensures Qualifies(c'[j], w) <==> j in idx' {
      assert j in idx' <==> j == 0 || j in Shifted(idx);
      if j > 0 { assert c'[j] == c[j - 1]; }
    }
  }

  lemma ConsDropped(x: ObjectSummary, c: seq<ObjectSummary>, q: seq<ObjectSummary>, idx: seq<nat>, w: Window)
    requires FilterPositions(c, q, idx, w) && !Qualifies(x, w)
    requires forall j :: j in Shifted(idx) <==> j > 0 && j - 1 in idx
    ensures FilterPositions([x] + c, q, Shifted(idx), w)
  {
    var c', idx' := [x] + c, Shifted(idx);
    forall k | 0 <= k < |idx'| ensures idx'[k] < |c'| && q[k] == c'[idx'[k]] {
      assert c'[idx[k] + 1] == c[idx[k]];
    }
    forall j | 0 <= j < |c'| ensures Qualifies(c'[j], w) <==> j in idx' {
      if j > 0 { assert c'[j] == c[j - 1]; }
    }
  }

  /** `Qualifying` is `.filter`: its result sits at strictly increasing
      positions of the page, exactly the positions whose object qualifies.
      So survivors keep listing order, and every qualifying occurrence,
      duplicates included, survives once. */
  lemma {:induction false} QualifyingPositions(contents: seq<ObjectSummary>, w: Window)
    returns (idx: seq<nat>)
    ensures FilterPositions(contents, Qualifying(contents, w), idx, w)
  {
    if contents == [] {
      idx := [];
    } else {
      var rest := QualifyingPositions(contents[1..], w);
      ConsPositions(contents[0], contents[1..], Qualifying(contents[1..], w), rest, w);
      assert contents == [contents[0]] + contents[1..];
      idx := if Qualifies(contents[0], w) then [0] + Shifted(rest) else Shifted(rest);
      if !Qualifies(contents[0], w) {
        assert Qualifying(contents, w) == [] + Qualifying(contents[1..], w);
      }
    }
  }

  /** Insert `x` before the first element that is not older than it. */
  function Insert(x: ObjectSummary, s: seq<ObjectSummary>): seq<ObjectSummary> {
    if s == [] then [x]
    else if x.lastModified <= s[0].lastModified then [x] + s
    else [s[0]] + Insert(x, s[1..])
  }

  /** JavaScript's stable `sort((a, b) => a.LastModified - b.LastModified)`. */
  function SortByTime(s: seq<ObjectSummary>): seq<ObjectSummary> {
    if s == [] then [] else Insert(s[0], SortByTime(s[1..]))
  }

  predicate SortedByTime(s: seq<ObjectSummary>) {
    forall i, j :: 0 <= i < j < |s| ==> s[i].lastModified <= s[j].lastModified
  }

  /** The objects of `s` with LastModified `t`, in order. */
  function WithTime(s: seq<ObjectSummary>, t: int): seq<ObjectSummary> {
    if s == [] then []
    else (if s[0].lastModified == t then [s[0]] else []) + WithTime(s[1..], t)
  }

  function Keys(s: seq<ObjectSummary>): (keys: seq<string>)
    ensures |keys| == |s|
    ensures forall i :: 0 <= i < |s| ==> keys[i] == s[i].key
  {
    seq(|s|, i requires 0 <= i < |s| => s[i].key)
  }

  /** The keys one page contributes. */
  function PageKeys(contents: seq<ObjectSummary>, w: Window): seq<string> {
    Keys(SortByTime(Qualifying(contents, w)))
  }

  /** Every object of `s` has LastModified at least `b`. */
  predicate AllAtLeast(s: seq<ObjectSummary>, b: int) {
    forall o <- s :: b <= o.lastModified
  }

  lemma SortedCons(x: ObjectSummary, s: seq<ObjectSummary>)
    ensures SortedByTime([x] + s) <==> AllAtLeast(s, x.lastModified) && SortedByTime(s)
  {
    var r := [x] + s;
    if AllAtLeast(s, x.lastModified) && SortedByTime(s) {
      forall i, j | 0 <= i < j < |r| ensures r[i].lastModified <= r[j].lastModified {
        if i == 0 {
          assert r[j] in s;
        } else {
          assert r[i] == s[i - 1] && r[j] == s[j - 1];
        }
      }
    }
    if SortedByTime(r) {
      forall o <- s ensures x.lastModified <= o.lastModified {
        var k :| 0 <= k < |s| && s[k] == o;
        assert r[0] == x && r[k + 1] == o;
      }
      forall i, j | 0 <= i < j < |s| ensures s[i].lastModified <= s[j].lastModified {
        assert r[i + 1] == s[i] && r[j + 1] == s[j];
      }
    }
  }

  lemma {:induction false} InsertPermutes(x: ObjectSummary, s: seq<ObjectSummary>)
    ensures multiset(Insert(x, s)) == multiset(s) + multiset{x}
  {
    if s != [] && x.lastModified > s[0].lastModified {
      InsertPermutes(x, s[1..]);
      assert s == [s[0]] + s[1..];
    }
  }

  lemma {:induction false} InsertAtLeast(x: ObjectSummary, s: seq<ObjectSummary>, b: int)
    requires AllAtLeast(s, b) && b <= x.lastModified
    ensures AllAtLeast(Insert(x, s), b)
  {
    if s != [] && x.lastModified > s[0].lastModified {
      InsertAtLeast(x, s[1..], b);
    }
  }

  lemma {:induction false} InsertSorted(x: ObjectSummary, s: seq<ObjectSummary>)
    requires SortedByTime(s)
    ensures SortedByTime(Insert(x, s))
  {
    if s == [] {
    } else {
      assert s == [s[0]] + s[1..];
      SortedCons(s[0], s[1..]);
      if x.lastModified <= s[0].lastModified {
        InsertAtLeast(s[0], s[1..], x.lastModified);
        assert AllAtLeast(s, x.lastModified);
        SortedCons(x, s);
      } else {
        InsertSorted(x, s[1..]);
        InsertAtLeast(x, s[1..], s[0].lastModified);
        SortedCons(s[0], Insert(x, s[1..]));
      }
    }
  }

  lemma {:induction false} WithTimeAppend(a: seq<ObjectSummary>, b: seq<ObjectSummary>, t: int)
    ensures WithTime(a + b, t) == WithTime(a, t) + WithTime(b, t)
  {
    if a != [] {
      WithTimeAppend(a[1..], b, t);
      assert (a + b)[0] == a[0] && (a + b)[1..] == a[1..] + b;
    } else {
      assert a + b == b;
    }
  }

  lemma {:induction false} InsertWithTime(x: ObjectSummary, s: seq<ObjectSummary>, t: int)
    ensures WithTime(Insert(x, s), t) ==
            (if x.lastModified == t then [x] + WithTime(s, t) else WithTime(s, t))
  {
    if s == [] {
      assert WithTime([x], t) == (if x.lastModified == t then [x] else []) + WithTime([], t);
    } else if x.lastModified <= s[0].lastModified {
      WithTimeAppend([x], s, t);
      assert WithTime([x], t) == (if x.lastModified == t then [x] else []) + WithTime([], t);
    } else {
      InsertWithTime(x, s[1..], t);
      WithTimeAppend([s[0]], Insert(x, s[1..]), t);
      WithTimeAppend([s[0]], s[1..], t);
      assert s == [s[0]] + s[1..];
    }
  }

  /** The per-page sort orders by LastModified, is a permutation, and keeps
      objects with equal LastModified in listing order. */
  lemma {:induction false} SortByTimeFacts(s: seq<ObjectSummary>)
    ensures SortedByTime(SortByTime(s))
    ensures multiset(SortByTime(s)) == multiset(s)
    ensures forall t :: WithTime(SortByTime(s), t) == WithTime(s, t)
  {
    if s != [] {
      var rest := SortByTime(s[1..]);
      SortByTimeFacts(s[1..]);
      InsertSorted(s[0], rest);
      InsertPermutes(s[0], rest);
      assert s == [s[0]] + s[1..];
      forall t ensures WithTime(SortByTime(s), t) == WithTime(s, t) {
        InsertWithTime(s[0], rest, t);
        WithTimeAppend([s[0]], s[1..], t);
      }
    }
  }

  /** What the keys of one page are: the qualifying objects of the page,
      sorted by LastModified with ties kept in listing order. */
  lemma PageKeysSelection(contents: seq<ObjectSummary>, w: Window)
    ensures exists sorted: seq<ObjectSummary> ::
              PageKeys(contents, w) == Keys(sorted) &&
              SortedByTime(sorted) &&
              multiset(sorted) == multiset(Qualifying(contents, w)) &&
              forall t :: WithTime(sorted, t) == WithTime(Qualifying(contents, w), t)
  {
    SortByTimeFacts(Qualifying(contents, w));
  }

  // ---------------------------------------------------------------------------
  // Pagination

  /** The outcome of walking `pages`: the concatenated page keys, or the fault
      of the first failed request (a request past the last response fails). */
  function Collect(pages: seq<ListResponse>, w: Window): Result<seq<string>> {
    if pages == [] || pages[0].ListFailed? then Err(ListingFailed)
    else if !HasMore(pages[0].nextToken) then Ok(PageKeys(pages[0].contents, w))
    else match Collect(pages[1..], w)
      case Ok(rest) => Ok(PageKeys(pages[0].contents, w) + rest)
      case Err(f) => Err(f)
  }

  /** The walk reads exactly the first `n` responses: each of them is a page,
      every one but the last carries a continuation token, the last does not. */
  predicate StopsAfter(pages: seq<ListResponse>, n: int) {
    1 <= n <= |pages| &&
    (forall j :: 0 <= j < n ==> pages[j].Listed?) &&
    (forall j :: 0 <= j < n - 1 ==> HasMore(pages[j].nextToken)) &&
    !HasMore(pages[n - 1].nextToken)
  }

  /** The page keys of the listed responses, in fetch order. */
  function Flatten(pages: seq<ListResponse>, w: Window): seq<string> {
    if pages == [] then []
    else (if pages[0].Listed? then PageKeys(pages[0].contents, w) else []) + Flatten(pages[1..], w)
  }

  /** Pagination succeeds exactly when the walk stops on a page without a
      continuation token, and then returns the keys of the pages up to it. */
  lemma {:induction false} CollectSucceeds(pages: seq<ListResponse>, w: Window)
    ensures Collect(pages, w).Ok? <==> exists n :: StopsAfter(pages, n)
    ensures forall n :: StopsAfter(pages, n) ==> Collect(pages, w) == Ok(Flatten(pages[..n], w))
  {
    if pages == [] || pages[0].ListFailed? {
      assert forall n :: !StopsAfter(pages, n);
    } else if !HasMore(pages[0].nextToken) {
      assert StopsAfter(pages, 1);
      forall n | StopsAfter(pages, n) ensures Collect(pages, w) == Ok(Flatten(pages[..n], w)) {
        assert n == 1;
        var x := pages[0];
        assert pages[..n] == [x];
        assert [x][1..] == [];
        assert Flatten([x], w) == PageKeys(x.contents, w) + [];
        assert PageKeys(x.contents, w) + [] == PageKeys(x.contents, w);
      }
    } else {
      var tail := pages[1..];
      CollectSucceeds(tail, w);
      forall n | StopsAfter(pages, n) ensures n >= 2 && StopsAfter(tail, n - 1) {
        assert forall j :: 0 <= j < n - 1 ==> tail[j] == pages[j + 1];
      }
      forall m | StopsAfter(tail, m) ensures StopsAfter(pages, m + 1) {
        assert forall j :: 1 <= j < m + 1 ==> pages[j] == tail[j - 1];
      }
      forall n | StopsAfter(pages, n) ensures Collect(pages, w) == Ok(Flatten(pages[..n], w)) {
        assert pages[..n][1..] == tail[..n - 1];
      }
      if Collect(pages, w).Ok? {
        var m :| StopsAfter(tail, m);
        assert StopsAfter(pages, m + 1);
      }
    }
  }

  lemma {:induction false} FlattenMembers(pages: seq<ListResponse>, w: Window, k: string)
    requires k in Flatten(pages, w)
    ensures exists j, o :: 0 <= j < |pages| && pages[j].Listed? && o in pages[j].contents &&
                           o.key == k && Qualifies(o, w)
  {
    if k in (if pages[0].Listed? then PageKeys(pages[0].contents, w) else []) {
      var q := Qualifying(pages[0].contents, w);
      SortByTimeFacts(q);
      var i :| 0 <= i < |SortByTime(q)| && SortByTime(q)[i].key == k;
      var o := SortByTime(q)[i];
      assert o in multiset(q);
      assert pages[0].Listed? && o in pages[0].contents;
    } else {
      FlattenMembers(pages[1..], w, k);
      var j, o :| 0 <= j < |pages[1..]| && pages[1..][j].Listed? && o in pages[1..][j].contents &&
                  o.key == k && Qualifies(o, w);
      assert pages[j + 1] == pages[1..][j];
    }
  }

  lemma {:induction false} FlattenComplete(pages: seq<ListResponse>, w: Window, j: nat, o: ObjectSummary)
    requires j < |pages| && pages[j].Listed? && o in pages[j].contents && Qualifies(o, w)
    ensures o.key in Flatten(pages, w)
  {
    if j == 0 {
      var q := Qualifying(pages[0].contents, w);
      SortByTimeFacts(q);
      assert o in multiset(SortByTime(q));
      var i :| 0 <= i < |SortByTime(q)| && SortByTime(q)[i] == o;
      assert PageKeys(pages[0].contents, w)[i] == o.key;
    } else {
      FlattenComplete(pages[1..], w, j - 1, o);
    }
  }

  /** Every selected key ends in `.jpg` and belongs to an object, on one of
      the pages read, whose LastModified lies in the closed window; and every
      such object on those pages is selected. */
  lemma SelectionExact(pages: seq<ListResponse>, w: Window, n: nat)
    requires StopsAfter(pages, n)
    ensures Collect(pages, w).Ok?
    ensures forall k <- Collect(pages, w).value ::
              EndsWith(k, ".jpg") &&
              exists j, o :: 0 <= j < n && pages[j].Listed? && o in pages[j].contents &&
                             o.key == k && InWindow(o, w)
    ensures forall j, o :: 0 <= j < n && o in pages[j].contents && Qualifies(o, w) ==>
              o.key in Collect(pages, w).value
  {
    CollectSucceeds(pages, w);
    var read := pages[..n];
    forall k <- Collect(pages, w).value
      ensures EndsWith(k, ".jpg") &&
              exists j, o :: 0 <= j < n && pages[j].Listed? && o in pages[j].contents &&
                             o.key == k && InWindow(o, w)
    {
      FlattenMembers(read, w, k);
      var j, o :| 0 <= j < |read| && read[j].Listed? && o in read[j].contents &&
                  o.key == k && Qualifies(o, w);
      assert read[j] == pages[j];
    }
    forall j, o | 0 <= j < n && o in pages[j].contents && Qualifies(o, w)
      ensures o.key in Collect(pages, w).value
    {
      assert read[j] == pages[j];
      FlattenComplete(read, w, j, o);
    }
  }

  /** Sorting is per page: a later page's older image comes after an earlier
      page's newer one, so the walk's result differs from the result of one
      page holding the same objects. */
  lemma PerPageOrderIsNotGlobal()
    ensures var w := Window(0, 10);
            var newer := ObjectSummary("cam/Images/d/b.jpg", 2);
            var older := ObjectSummary("cam/Images/d/a.jpg", 1);
            Collect([Listed([newer], Some("t")), Listed([older], None)], w) ==
              Ok(["cam/Images/d/b.jpg", "cam/Images/d/a.jpg"]) &&
            Collect([Listed([newer, older], None)], w) ==
              Ok(["cam/Images/d/a.jpg", "cam/Images/d/b.jpg"])
  {
    var w := Window(0, 10);
    var newer := ObjectSummary("cam/Images/d/b.jpg", 2);
    var older := ObjectSummary("cam/Images/d/a.jpg", 1);
    assert EndsWith(newer.key, ".jpg") && EndsWith(older.key, ".jpg");
    assert Qualifying([newer], w) == [newer];
    assert Qualifying([older], w) == [older];
    assert [newer, older][1..] == [older];
    assert Qualifying([newer, older], w) == [newer, older];
    assert SortByTime([older]) == [older];
    assert SortByTime([newer]) == [newer];
    assert SortByTime([newer, older]) == Insert(newer, [older]) == [older, newer];
    assert PageKeys([newer], w) == [newer.key];
    assert PageKeys([older], w) == [older.key];
    assert PageKeys([newer, older], w) == [older.key, newer.key];
    var twoPages := [Listed([newer], Some("t")), Listed([older], None)];
    assert HasMore(twoPages[0].nextToken);
    assert twoPages[1..] == [Listed([older], None)];
    assert Collect(twoPages[1..], w) == Ok([older.key]);
    assert Collect(twoPages, w) == Ok(PageKeys([newer], w) + [older.key]);
    assert [newer.key] + [older.key] == [newer.key, older.key];
    var onePage := [Listed([newer, older], None)];
    assert Collect(onePage, w) == Ok([older.key, newer.key]);
  }

  // ---------------------------------------------------------------------------
  // The loop

  /** `keys` put in front of the keys of a successful result. */
  function Prepend(keys: seq<string>, r: Result<seq<string>>): Result<seq<string>> {
    match r
    case Ok(rest) => Ok(keys + rest)
    case Err(f) => Err(f)
  }

  lemma CollectFrom(pages: seq<ListResponse>, i: nat, w: Window)
    requires i < |pages| && pages[i].Listed?
    ensures Collect(pages[i..], w) ==
              if HasMore(pages[i].nextToken)
              then Prepend(PageKeys(pages[i].contents, w), Collect(pages[i + 1..], w))
              else Ok(PageKeys(pages[i].contents, w))
  {
    assert pages[i..][1..] == pages[i + 1..];
  }

  lemma PrependPrepend(a: seq<string>, b: seq<string>, r: Result<seq<string>>)
    ensures Prepend(a, Prepend(b, r)) == Prepend(a + b, r)
  {
    if r.Ok? {
      assert a + (b + r.value) == (a + b) + r.value;
    }
  }

  lemma PrependEmpty(r: Result<seq<string>>)
    ensures Prepend([], r) == r
  {
    if r.Ok? {
      assert [] + r.value == r.value;
    }
  }

  /** `listImageKeys`: request pages until a response has no continuation
      token. Also returns the continuation token sent with each request made. */
  method ListImageKeys(pages: seq<ListResponse>, w: Window)
    returns (r: Result<seq<string>>, requests: seq<Option<string>>)
    ensures r == Collect(pages, w)
    ensures 1 <= |requests| <= |pages| + 1 && requests[0] == None
    ensures forall i :: 0 < i < |requests| ==>
              pages[i - 1].Listed? && HasMore(pages[i - 1].nextToken) &&
              requests[i] == pages[i - 1].nextToken
  {
    var keys: seq<string> := [];
    var token: Option<string> := None;
    var i := 0;
    requests := [];
    assert pages[0..] == pages;
    PrependEmpty(Collect(pages, w));
    while true
      invariant 0 <= i <= |pages| && |requests| == i
      invariant 0 < i ==> requests[0] == None
      invariant forall j :: 0 <= j < i ==> pages[j].Listed? && HasMore(pages[j].nextToken)
      invariant token == if i == 0 then None else pages[i - 1].nextToken
      invariant forall j :: 0 < j < i ==> requests[j] == pages[j - 1].nextToken
      invariant Collect(pages, w) == Prepend(keys, Collect(pages[i..], w))
      decreases |pages| - i
    {
      requests := requests + [token];
      if i == |pages| || pages[i].ListFailed? {
        return Err(ListingFailed), requests;
      }
      var page := pages[i];
      CollectFrom(pages, i, w);
      PrependPrepend(keys, PageKeys(page.contents, w), Collect(pages[i + 1..], w));
      keys := keys + PageKeys(page.contents, w);
      token := page.nextToken;
      if !HasMore(token) {
        return Ok(keys), requests;
      }
      i := i + 1;
    }
  }
}
