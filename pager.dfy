/** The pager of paginate_response: the list is cut into pages of a fixed
    size, each page is rendered, and keystrokes move between pages until 'q'
    is pressed. The keys read from the terminal are a scripted sequence, and
    the rendered pages are returned instead of printed. */
module Pager {
  import opened Text
  import opened Seqs

  /** The number of pages: the ceiling of n / per. */
  function TotalPages(n: nat, per: nat): nat
    requires per >= 1
  {
    (n + per - 1) / per
  }

  /** TotalPages is the ceiling: its pages hold every item and the last page
      is not empty. */
  lemma CeilingBounds(n: nat, per: nat)
    requires per >= 1
    ensures var total := TotalPages(n, per);
      (total - 1) * per < n <= total * per && (n >= 1 ==> total >= 1)
  {
    var total := TotalPages(n, per);
    var r := (n + per - 1) % per;
    assert n + per - 1 == total * per + r;
    assert (total - 1) * per == total * per - per;
  }

  /** The prompt under a page. */
  datatype Prompt = OnlyOnePage | NextOrQuit | PreviousOrQuit | NextPreviousOrQuit

  function PromptFor(page: int, total: int): Prompt
  {
    if page == 1 && page == total then OnlyOnePage
    else if page == 1 then NextOrQuit
    else if page == total then PreviousOrQuit
    else NextPreviousOrQuit
  }

  predicate OffersNext(p: Prompt)
  {
    p == NextOrQuit || p == NextPreviousOrQuit
  }

  predicate OffersPrevious(p: Prompt)
  {
    p == PreviousOrQuit || p == NextPreviousOrQuit
  }

  /** The page after the lower-cased key choice: 'n' advances only below the
      last page, 'p' goes back only above the first, any other key stays. */
  function NextPage(page: int, choice: char, total: int): (r: int)
    ensures 1 <= page <= total ==> 1 <= r <= total
    ensures r != page <==> (choice == 'n' && page < total) || (choice == 'p' && page > 1)
    ensures r == page || r == page + 1 || r == page - 1
  {
    if choice == 'n' && page < total then page + 1
    else if choice == 'p' && page > 1 then page - 1
    else page
  }

  /** The prompt offers 'n' exactly when 'n' moves, and 'p' exactly when 'p'
      moves, on every page of a list with more than one page. */
  lemma PromptMatchesMoves(page: int, total: int)
    requires 1 <= page <= total && total > 1
    ensures OffersNext(PromptFor(page, total)) <==> NextPage(page, 'n', total) != page
    ensures OffersPrevious(PromptFor(page, total)) <==> NextPage(page, 'p', total) != page
    ensures PromptFor(page, total) != OnlyOnePage
  {
  }

  /** An item that is a line of the feed rather than a heading. */
  predicate IsBullet(item: string)
  {
    |item| > 0 && item[0] == '-'
  }

  /** The printed body of a page: its items, with a blank line before every
      item after the first that is not a bullet. */
  function Body(slice: seq<string>): seq<string>
  {
    if slice == [] then []
    else
      var item := slice[|slice| - 1];
      Body(slice[..|slice| - 1]) + (if |slice| > 1 && !IsBullet(item) then ["", item] else [item])
  }

  /** The number of blank lines Body inserts. */
  function Breaks(slice: seq<string>): nat
  {
    if slice == [] then 0
    else Breaks(slice[..|slice| - 1]) + (if |slice| > 1 && !IsBullet(slice[|slice| - 1]) then 1 else 0)
  }

  /** Besides its items, the body holds only the Breaks(slice) blank lines. */
  lemma {:induction false} BodyLength(slice: seq<string>)
    ensures |Body(slice)| == |slice| + Breaks(slice)
  {
    if slice != [] {
      BodyLength(slice[..|slice| - 1]);
    }
  }

  /** Where item i of a page is printed in its body. */
  function Pos(slice: seq<string>, i: nat): nat
    requires i < |slice|
  {
    i + Breaks(slice[..i + 1])
  }

  /** Item i of a page is printed at Pos(slice, i) of its body, right after a
      blank line when it is not a bullet and not the first item. */
  lemma {:induction false} BodyAt(slice: seq<string>, i: nat)
    requires i < |slice|
    ensures Pos(slice, i) < |Body(slice)| && Body(slice)[Pos(slice, i)] == slice[i]
    ensures 0 < i && !IsBullet(slice[i]) ==> Body(slice)[Pos(slice, i) - 1] == ""
  {
    var p := slice[..|slice| - 1];
    var n := |p|;
    var tail := if n > 0 && !IsBullet(slice[n]) then ["", slice[n]] else [slice[n]];
    assert Body(slice) == Body(p) + tail;
    BodyLength(p);
    if i < n {
      assert slice[..i + 1] == p[..i + 1] && slice[i] == p[i];
      BodyAt(p, i);
    } else {
      assert slice[..i + 1] == slice;
    }
  }

  /** The items keep their order in the body. */
  lemma PosIncreasing(slice: seq<string>, i: nat, j: nat)
    requires i < j < |slice|
    ensures Pos(slice, i) < Pos(slice, j)
  {
    BreaksGrow(slice, i + 1, j + 1);
  }

  lemma {:induction false} BreaksGrow(slice: seq<string>, i: nat, j: nat)
    requires i <= j <= |slice|
    ensures Breaks(slice[..i]) <= Breaks(slice[..j])
    decreases j - i
  {
    if i < j {
      BreaksGrow(slice, i, j - 1);
      assert slice[..j][..j - 1] == slice[..j - 1];
    }
  }

  /** The printing loop of a page. */
  method RenderBody(slice: seq<string>) returns (lines: seq<string>)
    ensures lines == Body(slice)
  {
    lines := [];
    for i := 0 to |slice|
      invariant lines == Body(slice[..i])
    {
      assert slice[..i + 1][..i] == slice[..i];
      if !IsBullet(slice[i]) {
        if i > 0 {
          lines := lines + [""];
        }
        lines := lines + [slice[i]];
      } else {
        lines := lines + [slice[i]];
      }
    }
    assert slice[..|slice|] == slice;
  }

  /** One rendered page: its number, the page count, the 1-based range of
      items shown, the number of items, the printed body and the prompt. */
  datatype Screen = Screen(page: nat, total: nat, first: nat, last: nat, count: nat,
                           body: seq<string>, prompt: Prompt)

  /** The page page of items. */
  function ScreenAt(items: seq<string>, per: nat, page: nat): (s: Screen)
    requires per >= 1 && 1 <= page <= TotalPages(|items|, per)
  {
    var total := TotalPages(|items|, per);
    CeilingBounds(|items|, per);
    assert (page - 1) * per <= (total - 1) * per;
    var start := (page - 1) * per;
    var end := start + per;
    var last := if end < |items| then end else |items|;
    Screen(page, total, start + 1, last, |items|, Body(items[start..last]), PromptFor(page, total))
  }

  /** A page shows a non-empty range of at most per items, a full page unless
      it is the last, and the range starts right after the previous page's. */
  lemma ScreenRange(items: seq<string>, per: nat, page: nat)
    requires per >= 1 && 1 <= page <= TotalPages(|items|, per)
    ensures var s := ScreenAt(items, per, page);
      1 <= s.first <= s.last <= |items| && s.last - s.first + 1 <= per &&
      (page < s.total ==> s.last - s.first + 1 == per) &&
      s.first == (page - 1) * per + 1 &&
      s.body == Body(items[s.first - 1..s.last])
  {
    var total := TotalPages(|items|, per);
    CeilingBounds(|items|, per);
    if page < total {
      assert page * per <= (total - 1) * per;
    }
  }

  /** Every item is shown on some page: item i is on page i / per + 1. */
  lemma EveryItemShown(items: seq<string>, per: nat, i: nat)
    requires per >= 1 && i < |items|
    ensures 1 <= i / per + 1 <= TotalPages(|items|, per)
    ensures var s := ScreenAt(items, per, i / per + 1);
      s.first <= i + 1 <= s.last
  {
    var total := TotalPages(|items|, per);
    var q := i / per;
    CeilingBounds(|items|, per);
    assert q * per <= i < q * per + per;
  }

  /** How paging stops: an empty list exits 1 before rendering, a single page
      exits 1 after one render, 'q' exits 0; AwaitingKey means the scripted
      keys ran out while the program waits for one. */
  datatype PagerEnd = NoItems | SinglePage | Quit | AwaitingKey

  /** The pages rendered from page on with the keys still to be read, and how
      paging ends. */
  function Run(items: seq<string>, per: nat, page: nat, keys: seq<char>): (seq<Screen>, PagerEnd)
    requires per >= 1 && 1 <= page <= TotalPages(|items|, per)
    decreases |keys|
  {
    var total := TotalPages(|items|, per);
    var s := ScreenAt(items, per, page);
    if page == 1 && page == total then ([s], SinglePage)
    else if keys == [] then ([s], AwaitingKey)
    else if LowerChar(keys[0]) == 'q' then ([s], Quit)
    else
      var rest := Run(items, per, NextPage(page, LowerChar(keys[0]), total), keys[1..]);
      ([s] + rest.0, rest.1)
  }

  /** The whole session of paginate_response on items with the keys pressed. */
  function Session(items: seq<string>, per: nat, keys: seq<char>): (seq<Screen>, PagerEnd)
    requires per >= 1
  {
    if items == [] then ([], NoItems)
    else
      CeilingBounds(|items|, per);
      Run(items, per, 1, keys)
  }

  /** The trace of a session: it starts on page start, every screen is the
      rendering of its page, each page number stays within 1..total, and each
      next page is the previous one moved by the key read in between, which
      was not 'q'. */
  lemma {:induction false} RunSteps(items: seq<string>, per: nat, page: nat, keys: seq<char>)
    requires per >= 1 && 1 <= page <= TotalPages(|items|, per)
    ensures var r := Run(items, per, page, keys); var total := TotalPages(|items|, per);
      1 <= |r.0| <= |keys| + 1 && r.0[0].page == page &&
      (forall i :: 0 <= i < |r.0| ==> 1 <= r.0[i].page <= total && r.0[i] == ScreenAt(items, per, r.0[i].page)) &&
      (forall i :: 0 <= i < |r.0| - 1 ==>
        LowerChar(keys[i]) != 'q' && r.0[i + 1].page == NextPage(r.0[i].page, LowerChar(keys[i]), total))
    decreases |keys|
  {
    var total := TotalPages(|items|, per);
    var r := Run(items, per, page, keys);
    if !(page == 1 && page == total) && keys != [] && LowerChar(keys[0]) != 'q' {
      var next := NextPage(page, LowerChar(keys[0]), total);
      var rest := Run(items, per, next, keys[1..]);
      RunSteps(items, per, next, keys[1..]);
      assert r.0 == [ScreenAt(items, per, page)] + rest.0;
      forall i | 0 < i < |r.0| - 1
        ensures LowerChar(keys[i]) != 'q' && r.0[i + 1].page == NextPage(r.0[i].page, LowerChar(keys[i]), total)
      {
        assert r.0[i] == rest.0[i - 1] && r.0[i + 1] == rest.0[i] && keys[i] == keys[1..][i - 1];
      }
    }
  }

  /** How a session ends: a single page ends it after one screen and only a
      single page does; 'q' ends it on the key read after the last screen; if
      the keys run out, every key was read. */
  lemma {:induction false} RunEnds(items: seq<string>, per: nat, page: nat, keys: seq<char>)
    requires per >= 1 && 1 <= page <= TotalPages(|items|, per)
    ensures var r := Run(items, per, page, keys); var total := TotalPages(|items|, per);
      (r.1 == SinglePage <==> total == 1) && (total == 1 ==> |r.0| == 1) &&
      (r.1 == Quit ==> |r.0| <= |keys| && LowerChar(keys[|r.0| - 1]) == 'q') &&
      (r.1 == AwaitingKey ==> |r.0| == |keys| + 1) &&
      r.1 != NoItems
    decreases |keys|
  {
    var total := TotalPages(|items|, per);
    if !(page == 1 && page == total) && keys != [] && LowerChar(keys[0]) != 'q' {
      var next := NextPage(page, LowerChar(keys[0]), total);
      RunEnds(items, per, next, keys[1..]);
      var rest := Run(items, per, next, keys[1..]);
      if rest.1 == Quit {
        assert keys[|rest.0|] == keys[1..][|rest.0| - 1];
      }
    }
  }

  /** The rendering of the current page: its range, its body and its prompt. */
  method RenderPage(items: seq<string>, perPage: nat, page: nat, total: nat) returns (s: Screen)
    requires perPage >= 1 && total == TotalPages(|items|, perPage) && 1 <= page <= total
    ensures s == ScreenAt(items, perPage, page)
  {
    CeilingBounds(|items|, perPage);
    var start := (page - 1) * perPage;
    var stop := start + perPage;
    assert (page - 1) * perPage <= (total - 1) * perPage;
    var last := if stop < |items| then stop else |items|;
    var body := RenderBody(items[start..last]);
    var prompt;
    if page == 1 && page == total {
      prompt := OnlyOnePage;
    } else if page == 1 {
      prompt := NextOrQuit;
    } else if page == total {
      prompt := PreviousOrQuit;
    } else {
      prompt := NextPreviousOrQuit;
    }
    s := Screen(page, total, start + 1, last, |items|, body, prompt);
  }

  /** paginate_response: the page count, then the loop that renders the
      current page, stops on a single page, reads a key and stops on 'q' or
      moves. */
  method Paginate(items: seq<string>, perPage: nat, keys: seq<char>)
    returns (screens: seq<Screen>, end: PagerEnd)
    requires perPage >= 1
    ensures (screens, end) == Session(items, perPage, keys)
  {
    if items == [] {
      return [], NoItems;
    }
    var total := (|items| + perPage - 1) / perPage;
    CeilingBounds(|items|, perPage);
    var page := 1;
    var used := 0;
    screens := [];
    ghost var whole := Session(items, perPage, keys);
    while true
      invariant 0 <= used <= |keys|
      invariant 1 <= page <= total
      invariant screens + Run(items, perPage, page, keys[used..]).0 == whole.0
      invariant Run(items, perPage, page, keys[used..]).1 == whole.1
      decreases |keys| - used
    {
      var screen := RenderPage(items, perPage, page, total);
      RunStops(items, perPage, page, keys[used..]);
      if page == 1 && page == total {
        return screens + [screen], SinglePage;
      }
      if used == |keys| {
        return screens + [screen], AwaitingKey;
      }
      var choice := LowerChar(keys[used]);
      if choice == 'q' {
        return screens + [screen], Quit;
      }
      var next := page;
      if choice == 'n' && page < total {
        next := page + 1;
      } else if choice == 'p' && page > 1 {
        next := page - 1;
      }
      ghost var rest := Run(items, perPage, next, keys[used + 1..]);
      RunMoves(items, perPage, page, keys[used..]);
      assert keys[used..][1..] == keys[used + 1..];
      Regroup(screens, [screen], rest.0);
      screens := screens + [screen];
      page := next;
      used := used + 1;
    }
  }

  /** One key read by a session that goes on: the screen of the page, then
      the session from the page the key leads to. */
  lemma RunMoves(items: seq<string>, per: nat, page: nat, keys: seq<char>)
    requires per >= 1 && 1 <= page <= TotalPages(|items|, per)
    requires !(page == 1 && page == TotalPages(|items|, per))
    requires keys != [] && LowerChar(keys[0]) != 'q'
    ensures var next := NextPage(page, LowerChar(keys[0]), TotalPages(|items|, per));
      var rest := Run(items, per, next, keys[1..]);
      Run(items, per, page, keys) == ([ScreenAt(items, per, page)] + rest.0, rest.1)
  {
  }

  /** The three ways a session ends on the current page. */
  lemma RunStops(items: seq<string>, per: nat, page: nat, keys: seq<char>)
    requires per >= 1 && 1 <= page <= TotalPages(|items|, per)
    ensures var s := ScreenAt(items, per, page); var total := TotalPages(|items|, per);
      (page == 1 && page == total ==> Run(items, per, page, keys) == ([s], SinglePage)) &&
      (!(page == 1 && page == total) && keys == [] ==> Run(items, per, page, keys) == ([s], AwaitingKey)) &&
      (!(page == 1 && page == total) && keys != [] && LowerChar(keys[0]) == 'q' ==> Run(items, per, page, keys) == ([s], Quit))
  {
  }
}
