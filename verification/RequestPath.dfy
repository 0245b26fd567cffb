/** URL::ParseRequest: a request decoded and its dot segments removed in one pass. */
module RequestPath {
  import opened Ascii

  // ----- decoding ------------------------------------------------------------------

  function ToUpper(c: char): char
  {
    if 'a' <= c <= 'z' then c - ' ' else c
  }

  predicate IsHex(c: char)
  {
    '0' <= c <= '9' || 'A' <= c <= 'F'
  }

  function HexValue(c: char): (v: int)
    requires IsHex(c)
    ensures 0 <= v < 16
  {
    if c <= '9' then c as int - '0' as int else c as int - '7' as int
  }

  /** A decoded character, whether it was encoded, where it or its code is, and what
      FromURI returns when it is refused. */
  datatype Item = Item(c: char, encoded: bool, place: nat, stop: nat)

  function Code(hi: char, lo: char): char
    requires IsHex(hi) && IsHex(lo)
  {
    (HexValue(hi) * 16 + HexValue(lo)) as char
  }

  /** FromURI, were no character refused. */
  function Items(s: string, i: nat): seq<Item>
    requires i <= |s|
    decreases |s| - i
  {
    if i == |s| then []
    else if s[i] != '%' then [Item(s[i], false, i, i)] + Items(s, i + 1)
    else if i + 1 == |s| then [Item('%', false, i, i)]
    else if i + 2 == |s| then [Item('%', false, i, i), Item(ToUpper(s[i + 1]), false, i + 1, i + 1)]
    else Escaped(i, ToUpper(s[i + 1]), ToUpper(s[i + 2])) + Items(s, i + 3)
  }

  function Escaped(i: nat, hi: char, lo: char): seq<Item>
  {
    if IsHex(hi) && IsHex(lo) then [Item(Code(hi, lo), true, i, i)]
    else [Item('%', false, i, i), Item(hi, false, i + 1, i + 2), Item(lo, false, i + 2, i + 3)]
  }

  predicate IsQuery(x: Item)
  {
    x.c == '?' && !x.encoded
  }

  /** The characters before the query. */
  function Path(items: seq<Item>): seq<Item>
  {
    if items == [] || IsQuery(items[0]) then [] else [items[0]] + Path(items[1..])
  }

  /** Where the query mark is, or the end. */
  function Place(items: seq<Item>, end: nat): nat
  {
    if items == [] then end else if IsQuery(items[0]) then items[0].place else Place(items[1..], end)
  }

  /** Where the query is said to be. */
  function Stop(items: seq<Item>, end: nat): nat
  {
    if items == [] then end else if IsQuery(items[0]) then items[0].stop else Stop(items[1..], end)
  }

  // ----- one pass ------------------------------------------------------------------------

  /** `level` is 1 behind a slash and one more for each dot since, 0 inside a name. */
  datatype State = State(path: string, slashs: seq<nat>, level: nat)

  const FRESH := State("", [], 0)

  predicate IsSlash(c: char)
  {
    c == '/' || c == '\\'
  }

  function Last(s: seq<nat>): nat
    requires s != []
  {
    s[|s| - 1]
  }

  predicate Bounded(s: State)
  {
    && s.level <= 3
    && (forall i :: 0 <= i < |s.slashs| ==> s.slashs[i] <= |s.path|)
    && (forall i, j :: 0 <= i < j < |s.slashs| ==> s.slashs[i] <= s.slashs[j])
  }

  /** Back to the start of the last name. */
  function Up(s: State): State
    requires Bounded(s)
  {
    if s.slashs == [] then s.(path := "")
    else s.(path := s.path[..Last(s.slashs)], slashs := s.slashs[..|s.slashs| - 1])
  }

  function Step(s: State, x: Item): State
    requires Bounded(s)
  {
    if IsSlash(x.c) then (if s.level > 2 then Up(s) else s).(level := 1)
    else if s.level == 0 then s.(path := s.path + [x.c])
    else if s.level < 3 && !x.encoded && x.c == '.' then s.(level := s.level + 1)
    else State(s.path + "/.."[..s.level] + [x.c], s.slashs + [|s.path|], 0)
  }

  function Finished(s: State, makeFolder: bool): string
    requires Bounded(s)
  {
    if s.level > 2 then (if s.slashs == [] then "" else s.path[..Last(s.slashs)]) + "/"
    else if s.level > 0 || makeFolder then s.path + "/"
    else s.path
  }

  // ----- segments ----------------------------------------------------------------------------

  type Segment = seq<Item>

  predicate IsDots(g: Segment)
  {
    forall i :: 0 <= i < |g| ==> g[i].c == '.' && !g[i].encoded
  }

  /** Empty, "." or "..", with dots that were not encoded. */
  predicate Vanishes(g: Segment)
  {
    |g| <= 2 && IsDots(g)
  }

  function Chars(g: Segment): (s: string)
    ensures |s| == |g|
  {
    seq(|g|, i requires 0 <= i < |g| => g[i].c)
  }

  /** The names of a path after one more segment. */
  function Resolve1(names: seq<string>, g: Segment): seq<string>
  {
    if !Vanishes(g) then names + [Chars(g)]
    else if |g| == 2 && names != [] then names[..|names| - 1]
    else names
  }

  function Resolve(segments: seq<Segment>): seq<string>
  {
    if segments == [] then [] else Resolve1(Resolve(segments[..|segments| - 1]), segments[|segments| - 1])
  }

  /** The segments a slash has ended, and the one under way. */
  function Ended(items: seq<Item>): seq<Segment>
  {
    if items == [] then []
    else
      var init, x := items[..|items| - 1], items[|items| - 1];
      if IsSlash(x.c) then Ended(init) + [Open(init)] else Ended(init)
  }

  function Open(items: seq<Item>): Segment
  {
    if items == [] then []
    else
      var init, x := items[..|items| - 1], items[|items| - 1];
      if IsSlash(x.c) then [] else Open(init) + [x]
  }

  function Text(names: seq<string>): string
  {
    if names == [] then "" else Text(names[..|names| - 1]) + "/" + names[|names| - 1]
  }

  /** Where each name's slash is. */
  function Starts(names: seq<string>): (s: seq<nat>)
    ensures |s| == |names|
  {
    if names == [] then [] else Starts(names[..|names| - 1]) + [|Text(names[..|names| - 1])|]
  }

  /** The normalised path: all names, and a slash when the last segment names nothing. */
  function Normalised(items: seq<Item>, makeFolder: bool): string
  {
    var names := Resolve1(Resolve(Ended(items)), Open(items));
    Text(names) + if Vanishes(Open(items)) || makeFolder then "/" else ""
  }

  // ----- the pass refines the segments ---------------------------------------------------------

  lemma TextMore(names: seq<string>, name: string)
    ensures Text(names + [name]) == Text(names) + "/" + name
    ensures Starts(names + [name]) == Starts(names) + [|Text(names)|]
  {
    assert (names + [name])[..|names|] == names;
  }

  lemma ResolveMore(segments: seq<Segment>, g: Segment)
    ensures Resolve(segments + [g]) == Resolve1(Resolve(segments), g)
  {
    hide Resolve1;
    assert (segments + [g])[..|segments|] == segments;
  }

  /** What the pass keeps: `slashs` holds the start of each live name, and the path is
      their text. */
  ghost predicate Follows(s: State, items: seq<Item>)
  {
    var names, g := Resolve(Ended(items)), Open(items);
    if s.level > 0 then Vanishes(g) && s.level == |g| + 1 && s.path == Text(names) && s.slashs == Starts(names)
    else !Vanishes(g) && s.path == Text(names) + "/" + Chars(g) && s.slashs == Starts(names) + [|Text(names)|]
  }

  lemma {:induction false} StartsBounded(names: seq<string>)
    ensures forall i :: 0 <= i < |names| ==> Starts(names)[i] <= |Text(names)|
    ensures forall i, j :: 0 <= i < j < |names| ==> Starts(names)[i] <= Starts(names)[j]
  {
    if names != [] {
      StartsBounded(names[..|names| - 1]);
    }
  }

  lemma FollowsBounded(s: State, items: seq<Item>)
    requires Follows(s, items)
    ensures Bounded(s)
  {
    hide Resolve, Ended, Open, Text, Starts;
    StartsBounded(Resolve(Ended(items)));
  }

  lemma ItemsMore(items: seq<Item>, x: Item)
    ensures Ended(items + [x]) == if IsSlash(x.c) then Ended(items) + [Open(items)] else Ended(items)
    ensures Open(items + [x]) == if IsSlash(x.c) then [] else Open(items) + [x]
  {
    assert (items + [x])[..|items|] == items;
  }

  /** Back over the last name. */
  lemma UpFollows(names: seq<string>, level: nat)
    requires level <= 3
    ensures Bounded(State(Text(names), Starts(names), level))
    ensures var up := Up(State(Text(names), Starts(names), level));
      var fewer := if names == [] then [] else names[..|names| - 1];
      up == State(Text(fewer), Starts(fewer), level)
  {
    StartsBounded(names);
    if names != [] {
      var init := names[..|names| - 1];
      TextMore(init, names[|names| - 1]);
      assert names == init + [names[|names| - 1]];
      hide Text, Starts;
      assert Text(names)[..|Text(init)|] == Text(init);
    }
  }

  lemma SlashFollows(s: State, items: seq<Item>, x: Item)
    requires Follows(s, items) && Bounded(s) && IsSlash(x.c)
    ensures Follows(Step(s, x), items + [x])
  {
    hide Resolve, Ended, Open, Text, Starts;
    ItemsMore(items, x);
    var names, g := Resolve(Ended(items)), Open(items);
    ResolveMore(Ended(items), g);
    TextMore(names, Chars(g));
    UpFollows(names, s.level);
    assert Vanishes([]);
  }

  lemma DotsText(g: Segment)
    requires Vanishes(g)
    ensures "/.."[..|g| + 1] == "/" + Chars(g)
  {
    if |g| == 2 {
      assert "/.."[..3] == "/..";
      assert Chars(g) == "..";
    } else if |g| == 1 {
      assert Chars(g) == ".";
    } else {
      assert Chars(g) == "";
    }
  }

  lemma CharFollows(s: State, items: seq<Item>, x: Item)
    requires Follows(s, items) && Bounded(s) && !IsSlash(x.c)
    ensures Follows(Step(s, x), items + [x])
  {
    hide Resolve, Ended, Open, Text, Starts, IsDots;
    ItemsMore(items, x);
    var names, g := Resolve(Ended(items)), Open(items);
    DotsMore(g, x);
    assert Chars(g + [x]) == Chars(g) + [x.c];
    if s.level == 0 {
      assert Text(names) + "/" + Chars(g) + [x.c] == Text(names) + "/" + (Chars(g) + [x.c]);
    } else if !(s.level < 3 && !x.encoded && x.c == '.') {
      DotsText(g);
      assert Text(names) + ("/" + Chars(g)) + [x.c] == Text(names) + "/" + (Chars(g) + [x.c]);
    }
  }

  lemma DotsMore(g: Segment, x: Item)
    ensures IsDots(g + [x]) <==> IsDots(g) && x.c == '.' && !x.encoded
  {
    assert forall i :: 0 <= i < |g| ==> (g + [x])[i] == g[i];
    assert (g + [x])[|g|] == x;
  }

  lemma StepFollows(s: State, items: seq<Item>, x: Item)
    requires Follows(s, items)
    ensures Bounded(s) && Follows(Step(s, x), items + [x])
  {
    hide Follows, Step;
    FollowsBounded(s, items);
    if IsSlash(x.c) {
      SlashFollows(s, items, x);
    } else {
      CharFollows(s, items, x);
    }
  }

  lemma FinishedIs(s: State, items: seq<Item>, makeFolder: bool)
    requires Follows(s, items)
    ensures Bounded(s) && Finished(s, makeFolder) == Normalised(items, makeFolder)
  {
    hide Resolve, Ended, Open, Text, Starts, IsDots;
    FollowsBounded(s, items);
    var names, g := Resolve(Ended(items)), Open(items);
    TextMore(names, Chars(g));
    UpFollows(names, s.level);
    assert Text([]) == "" by {
      NoText();
    }
    if s.level == 0 {
      assert s.path + "" == s.path;
    }
  }

  lemma NoText()
    ensures Text([]) == ""
  {
  }

  /** The state after a sequence of characters, the first of them a slash. */
  function Fold(items: seq<Item>): (s: State)
    ensures items == [] ==> s == FRESH
    ensures items != [] && IsSlash(items[0].c) ==> Follows(s, items)
    ensures Bounded(s)
  {
    if items == [] then FRESH
    else
      var init, x := items[..|items| - 1], items[|items| - 1];
      assert init + [x] == items;
      if init != [] && IsSlash(items[0].c) then
        StepFollows(Fold(init), init, x);
        FollowsBounded(Step(Fold(init), x), items);
        Step(Fold(init), x)
      else
        FirstFollows(x);
        StepBounded(Fold(init), x);
        Step(Fold(init), x)
  }

  lemma FirstFollows(x: Item)
    ensures IsSlash(x.c) ==> Follows(Step(FRESH, x), [x])
  {
    if IsSlash(x.c) {
      ItemsMore([], x);
      assert [] + [x] == [x];
      NothingYet();
      hide Ended, Open, Resolve, Text, Starts;
      var none: seq<Segment> := [];
      ResolveMore(none, []);
    }
  }

  lemma FoldFollows(items: seq<Item>)
    requires items != [] && IsSlash(items[0].c)
    ensures Follows(Fold(items), items)
  {
  }

  lemma FreshBounded()
    ensures Bounded(FRESH) && Fold([]) == FRESH
  {
  }

  lemma NothingYet()
    ensures Ended([]) == [] && Open([]) == [] && Resolve([]) == [] && Text([]) == "" && Starts([]) == [] && Vanishes([])
  {
  }

  lemma StepBounded(s: State, x: Item)
    requires Bounded(s)
    ensures Bounded(Step(s, x))
  {
  }

  // ----- the objects ---------------------------------------------------------------------------

  /** The closure that ParseRequest hands to FromURI, with what it captures. */
  class Collector {
    var path: string
    var slashs: seq<nat>
    var level: nat

    function Current(): State
      reads this
    {
      State(path, slashs, level)
    }

    constructor ()
      ensures Current() == FRESH
    {
      path, slashs, level := "", [], 0;
    }

    /** Refuses the query mark, and takes any other character into the path. */
    method Take(c: char, encoded: bool) returns (more: bool)
      requires Bounded(Current())
      modifies this
      ensures more == !(c == '?' && !encoded)
      ensures Bounded(Current())
      ensures Current() == if more then Step(old(Current()), Item(c, encoded, 0, 0)) else old(Current())
    {
      if !encoded && c == '?' {
        return false;
      }
      StepBounded(Current(), Item(c, encoded, 0, 0));
      if IsSlash(c) {
        if level > 2 {
          if slashs != [] {
            path := path[..slashs[|slashs| - 1]];
            slashs := slashs[..|slashs| - 1];
          } else {
            path := "";
          }
        }
        level := 1;
        return true;
      }
      if level > 0 {
        if level < 3 && !encoded && c == '.' {
          level := level + 1;
          return true;
        }
        slashs := slashs + [|path|];
        path := path + "/.."[..level];
        level := 0;
      }
      path := path + [c];
      return true;
    }
  }

  function FoldFrom(s: State, items: seq<Item>): (r: State)
    requires Bounded(s)
    ensures Bounded(r)
    decreases |items|
  {
    if items == [] then s
    else
      StepBounded(s, items[0]);
      FoldFrom(Step(s, items[0]), items[1..])
  }

  lemma {:induction false} FoldJoins(before: seq<Item>, items: seq<Item>)
    ensures FoldFrom(Fold(before), items) == Fold(before + items)
    decreases |items|
  {
    hide Step, Follows;
    if items == [] {
      assert before + items == before;
    } else {
      var more := before + [items[0]];
      assert more[..|before|] == before;
      assert Fold(more) == Step(Fold(before), items[0]) by {
        FoldMore(before, items[0]);
      }
      assert more + items[1..] == before + items;
      FoldJoins(more, items[1..]);
    }
  }

  lemma FoldMore(before: seq<Item>, x: Item)
    ensures Fold(before + [x]) == Step(Fold(before), x)
  {
    hide Step, Follows;
    assert (before + [x])[..|before|] == before;
  }

  /** What is still ahead leads from `now` to `end`: the state and the place of the query. */
  ghost predicate Leads(now: State, ahead: seq<Item>, size: nat, end: (State, nat))
  {
    Bounded(now) && FoldFrom(now, Path(ahead)) == end.0 && Stop(ahead, size) == end.1
  }

  /** One character handed on. */
  method Take(forEach: Collector, x: Item, ghost later: seq<Item>, ghost size: nat, ghost end: (State, nat)) returns (more: bool)
    requires Leads(forEach.Current(), [x] + later, size, end)
    modifies forEach
    ensures more ==> Leads(forEach.Current(), later, size, end)
    ensures !more ==> (forEach.Current(), x.stop) == end && Bounded(forEach.Current())
  {
    ghost var now := forEach.Current();
    assert ([x] + later)[1..] == later;
    more := forEach.Take(x.c, x.encoded);
    if more {
      assert Path([x] + later) == [x] + Path(later);
      FoldCons(now, x, Path(later));
      assert Step(now, x) == Step(now, Item(x.c, x.encoded, 0, 0));
    } else {
      assert Path([x] + later) == [];
    }
  }

  lemma FoldCons(s: State, x: Item, items: seq<Item>)
    requires Bounded(s)
    ensures Bounded(Step(s, x)) && FoldFrom(s, [x] + items) == FoldFrom(Step(s, x), items)
  {
    hide Step;
    StepBounded(s, x);
    assert ([x] + items)[1..] == items;
  }

  lemma LeadsNowhere(now: State, size: nat, end: (State, nat))
    requires Leads(now, [], size, end)
    ensures (now, size) == end && Bounded(now)
  {
  }

  /** FromURI: characters one by one, decoded, until one is refused. */
  method FromUri(s: string, forEach: Collector) returns (count: nat)
    requires Bounded(forEach.Current())
    modifies forEach
    ensures Bounded(forEach.Current())
    ensures forEach.Current() == FoldFrom(old(forEach.Current()), Path(Items(s, 0)))
    ensures count == Stop(Items(s, 0), |s|)
  {
    hide Leads, FoldFrom, Path, Stop, Bounded, Escaped;
    ghost var end := (FoldFrom(forEach.Current(), Path(Items(s, 0))), Stop(Items(s, 0), |s|));
    assert Leads(forEach.Current(), Items(s, 0), |s|, end) by {
      LeadsFrom(forEach.Current(), Items(s, 0), |s|);
    }
    var i := 0;
    while i < |s|
      invariant i <= |s| && Leads(forEach.Current(), Items(s, i), |s|, end)
      decreases |s| - i
    {
      var more;
      if s[i] != '%' {
        more := Take(forEach, Item(s[i], false, i, i), Items(s, i + 1), |s|, end);
        if !more {
          return i;
        }
        i := i + 1;
      } else {
        var refused: int;
        refused, i := Percent(s, i, forEach, end);
        if refused >= 0 {
          return refused;
        }
      }
    }
    LeadsNowhere(forEach.Current(), |s|, end);
    return i;
  }

  lemma LeadsFrom(now: State, ahead: seq<Item>, size: nat)
    requires Bounded(now)
    ensures Leads(now, ahead, size, (FoldFrom(now, Path(ahead)), Stop(ahead, size)))
  {
  }

  /** From a percent sign: where to go on, or the count to return if a character was refused. */
  method Percent(s: string, i: nat, forEach: Collector, ghost end: (State, nat)) returns (refused: int, next: nat)
    requires i < |s| && s[i] == '%' && Leads(forEach.Current(), Items(s, i), |s|, end)
    modifies forEach
    ensures refused < 0 ==> i < next <= |s| && Leads(forEach.Current(), Items(s, next), |s|, end)
    ensures refused >= 0 ==> (forEach.Current(), refused) == end && Bounded(forEach.Current())
  {
    hide Leads, Bounded;
    next := |s|;
    if i + 1 == |s| {
      assert Items(s, i) == [Item('%', false, i, i)] + Items(s, |s|);
      var more := Take(forEach, Item('%', false, i, i), Items(s, |s|), |s|, end);
      return if more then -1 else i, |s|;
    }
    var hi := ToUpper(s[i + 1]);
    if i + 2 == |s| {
      var second := Item(hi, false, i + 1, i + 1);
      assert Items(s, i) == [Item('%', false, i, i)] + ([second] + Items(s, |s|));
      var more := Take(forEach, Item('%', false, i, i), [second] + Items(s, |s|), |s|, end);
      if !more {
        return i, |s|;
      }
      more := Take(forEach, second, Items(s, |s|), |s|, end);
      return if more then -1 else i + 1, |s|;
    }
    var lo := ToUpper(s[i + 2]);
    if !IsHex(hi) || !IsHex(lo) {
      refused := NoCode(s, i, hi, lo, forEach, end);
      return refused, i + 3;
    }
    var more := Take(forEach, Item(Code(hi, lo), true, i, i), Items(s, i + 3), |s|, end);
    return if more then -1 else i, i + 3;
  }

  /** A percent sign and two characters that are no code: all three are taken as they are. */
  method NoCode(s: string, i: nat, hi: char, lo: char, forEach: Collector, ghost end: (State, nat)) returns (refused: int)
    requires i + 3 <= |s| && !(IsHex(hi) && IsHex(lo))
    requires Leads(forEach.Current(), Escaped(i, hi, lo) + Items(s, i + 3), |s|, end)
    modifies forEach
    ensures refused < 0 ==> Leads(forEach.Current(), Items(s, i + 3), |s|, end)
    ensures refused >= 0 ==> (forEach.Current(), refused) == end && Bounded(forEach.Current())
  {
    hide Leads, Bounded, Items;
    ghost var later := Items(s, i + 3);
    var first, second, third := Item('%', false, i, i), Item(hi, false, i + 1, i + 2), Item(lo, false, i + 2, i + 3);
    assert Escaped(i, hi, lo) + later == [first] + ([second] + ([third] + later));
    var more := Take(forEach, first, [second] + ([third] + later), |s|, end);
    if !more {
      return i;
    }
    more := Take(forEach, second, [third] + later, |s|, end);
    if !more {
      return i + 2;
    }
    more := Take(forEach, third, later, |s|, end);
    return if more then -1 else i + 3;
  }

  /** ParseRequest for an absolute request: the path, and where its query begins. Of two
      slashes in front the first is passed over. */
  method ParseRequest(request: string, makeFolder: bool) returns (path: string, query: nat)
    requires request != "" && IsSlash(request[0])
    ensures var from := if |request| > 1 && request[1] == '/' then 1 else 0;
      var items := Items(request[from..], 0);
      && path == Normalised(Path(items), makeFolder) && query == from + Stop(items, |request| - from)
      && (query == from + FirstMark(request[from..], 0)
          <==> !InNoCode(request[from..], 0, FirstMark(request[from..], 0)))
  {
    hide Items, Path, Stop, FirstMark, InNoCode, Fold, FoldFrom, Follows, Finished, Normalised, Bounded;
    var from := if |request| > 1 && request[1] == '/' then 1 else 0;
    assert Bounded(FRESH) && Fold([]) == FRESH by {
      FreshBounded();
    }
    var forEach := new Collector();
    var s := request[from..];
    var count := FromUri(s, forEach);
    ghost var items := Path(Items(s, 0));
    SlashFirst(s);
    FoldJoins([], items);
    assert [] + items == items;
    FoldFollows(items);
    FinishedIs(Fold(items), items, makeFolder);
    path := Finish(forEach, makeFolder);
    query := from + count;
    QueryMarkExactly(s);
  }

  method Finish(forEach: Collector, makeFolder: bool) returns (path: string)
    requires Bounded(forEach.Current())
    ensures path == Finished(forEach.Current(), makeFolder)
  {
    path := forEach.path;
    if forEach.level > 0 {
      if forEach.level > 2 {
        path := path[..if forEach.slashs == [] then 0 else forEach.slashs[|forEach.slashs| - 1]];
      }
      path := path + "/";
    } else if makeFolder {
      path := path + "/";
    }
  }

  lemma SlashFirst(s: string)
    requires s != "" && IsSlash(s[0])
    ensures Path(Items(s, 0)) != [] && Path(Items(s, 0))[0].c == s[0]
  {
    assert Items(s, 0)[0] == Item(s[0], false, 0, 0);
  }

  /** The result never climbs out of the root and repeats no slash of the request: it
      is a slash and a name for each live segment, none of them empty. */
  lemma {:induction false} NamesNotEmpty(segments: seq<Segment>)
    ensures forall n :: n in Resolve(segments) ==> n != ""
  {
    if segments != [] {
      var init := segments[..|segments| - 1];
      NamesNotEmpty(init);
      forall n | n in Resolve(segments) ensures n != "" {
        if n !in Resolve(init) {
          assert n == Chars(segments[|segments| - 1]);
        }
      }
    }
  }

  // ----- the place of the query -----------------------------------------------------------------

  /** A percent sign and two characters that are no code. */
  predicate NoCodeAt(s: string, i: nat)
  {
    i + 2 < |s| && s[i] == '%' && (!IsHex(ToUpper(s[i + 1])) || !IsHex(ToUpper(s[i + 2])))
  }

  /** Whether `j` is the place of the second or third of such three, from `i` on. */
  predicate InNoCode(s: string, i: nat, j: nat)
    decreases |s| - i
  {
    i < |s|
    && ((NoCodeAt(s, i) && (j == i + 1 || j == i + 2)) || InNoCode(s, i + if s[i] == '%' then 3 else 1, j))
  }

  lemma StopOne(x: Item, later: seq<Item>, end: nat)
    ensures Stop([x] + later, end) == if IsQuery(x) then x.stop else Stop(later, end)
    ensures Place([x] + later, end) == if IsQuery(x) then x.place else Place(later, end)
  {
    assert ([x] + later)[1..] == later;
  }

  lemma UpperMark(c: char)
    ensures ToUpper(c) == '?' <==> c == '?'
    ensures IsHex(ToUpper(c)) ==> c != '?'
  {
  }

  /** From any place on: the mark is where it is, and the place returned one too far
      exactly behind such a percent sign. */
  lemma {:induction false} StopIs(s: string, i: nat)
    requires i <= |s|
    ensures var j := Place(Items(s, i), |s|);
      && i <= j <= |s| && (j < |s| ==> s[j] == '?')
      && Stop(Items(s, i), |s|) == j + if InNoCode(s, i, j) then 1 else 0
    decreases |s| - i
  {
    hide Stop, Place, Escaped, Code;
    if i < |s| {
      if s[i] != '%' {
        StopOne(Item(s[i], false, i, i), Items(s, i + 1), |s|);
        StopIs(s, i + 1);
        NotBefore(s, i + 1, i);
      } else if i + 2 >= |s| {
        StopShort(s, i);
      } else {
        StopIs(s, i + 3);
        StopEscaped(s, i);
        NotBefore(s, i + 3, i + 1);
        NotBefore(s, i + 3, i + 2);
      }
    } else {
      NoneLeft(|s|);
    }
  }

  /** The first question mark from `i` on, or the end. */
  function FirstMark(s: string, i: nat): (j: nat)
    requires i <= |s|
    ensures i <= j <= |s| && (j < |s| ==> s[j] == '?') && forall k :: i <= k < j ==> s[k] != '?'
    decreases |s| - i
  {
    if i == |s| || s[i] == '?' then i else FirstMark(s, i + 1)
  }

  lemma MarkOne(s: string, i: nat)
    requires i < |s|
    ensures FirstMark(s, i) == if s[i] == '?' then i else FirstMark(s, i + 1)
  {
  }

  /** The place of the character that ends the path is that of the first mark: one
      written as a code is not refused, and no decoding hides a plain one. */
  lemma {:induction false} PlaceIs(s: string, i: nat)
    requires i <= |s|
    ensures Place(Items(s, i), |s|) == FirstMark(s, i)
    decreases |s| - i
  {
    hide Stop, Place, Escaped, Code, FirstMark;
    if i == |s| {
      NoneLeft(|s|);
    } else if s[i] != '%' {
      StopOne(Item(s[i], false, i, i), Items(s, i + 1), |s|);
      MarkOne(s, i);
      PlaceIs(s, i + 1);
    } else if i + 2 >= |s| {
      StopShort(s, i);
    } else {
      PlaceIs(s, i + 3);
      StopEscaped(s, i);
      MarkOne(s, i);
      MarkOne(s, i + 1);
      MarkOne(s, i + 2);
      UpperMark(s[i + 1]);
      UpperMark(s[i + 2]);
    }
  }

  lemma NoneLeft(end: nat)
    ensures Stop([], end) == end && Place([], end) == end
  {
  }

  lemma {:induction false} NotBefore(s: string, i: nat, j: nat)
    requires j <= i
    ensures !InNoCode(s, i, j)
    decreases |s| - i
  {
    if i < |s| {
      NotBefore(s, i + if s[i] == '%' then 3 else 1, j);
    }
  }

  /** A percent sign with less than two characters behind it. */
  lemma StopShort(s: string, i: nat)
    requires i < |s| <= i + 2 && s[i] == '%'
    ensures var j := Place(Items(s, i), |s|);
      && j == FirstMark(s, i) && Stop(Items(s, i), |s|) == j && !InNoCode(s, i, j)
  {
    hide Stop, Place;
    NoneLeft(|s|);
    var first := Item('%', false, i, i);
    assert [first] + [] == [first];
    if i + 1 == |s| {
      StopOne(first, [], |s|);
    } else {
      var second := Item(ToUpper(s[i + 1]), false, i + 1, i + 1);
      assert Items(s, i) == [first] + ([second] + []);
      UpperMark(s[i + 1]);
      StopOne(first, [second] + [], |s|);
      StopOne(second, [], |s|);
    }
  }

  lemma StopEscaped(s: string, i: nat)
    requires i + 2 < |s| && s[i] == '%'
    ensures var j, later := Place(Items(s, i), |s|), Items(s, i + 3);
      if NoCodeAt(s, i) && s[i + 1] == '?' then j == i + 1 && Stop(Items(s, i), |s|) == i + 2
      else if NoCodeAt(s, i) && s[i + 2] == '?' then j == i + 2 && Stop(Items(s, i), |s|) == i + 3
      else j == Place(later, |s|) && Stop(Items(s, i), |s|) == Stop(later, |s|)
  {
    hide Stop, Place, Escaped, Items, ToUpper, IsHex;
    ItemsPercent(s, i);
    UpperMark(s[i + 1]);
    UpperMark(s[i + 2]);
    StopThree(i, ToUpper(s[i + 1]), ToUpper(s[i + 2]), Items(s, i + 3), |s|);
  }

  lemma ItemsPercent(s: string, i: nat)
    requires i + 2 < |s| && s[i] == '%'
    ensures Items(s, i) == Escaped(i, ToUpper(s[i + 1]), ToUpper(s[i + 2])) + Items(s, i + 3)
  {
    hide Escaped, ToUpper;
  }

  lemma StopThree(i: nat, hi: char, lo: char, later: seq<Item>, end: nat)
    ensures var items := Escaped(i, hi, lo) + later;
      if IsHex(hi) && IsHex(lo) then Place(items, end) == Place(later, end) && Stop(items, end) == Stop(later, end)
      else if hi == '?' then Place(items, end) == i + 1 && Stop(items, end) == i + 2
      else if lo == '?' then Place(items, end) == i + 2 && Stop(items, end) == i + 3
      else Place(items, end) == Place(later, end) && Stop(items, end) == Stop(later, end)
  {
    hide Stop, Place, Code, IsHex;
    if IsHex(hi) && IsHex(lo) {
      StopOne(Item(Code(hi, lo), true, i, i), later, end);
    } else {
      var first, second, third := Item('%', false, i, i), Item(hi, false, i + 1, i + 2), Item(lo, false, i + 2, i + 3);
      assert Escaped(i, hi, lo) + later == [first] + ([second] + ([third] + later));
      StopOne(first, [second] + ([third] + later), end);
      StopOne(second, [third] + later, end);
      StopOne(third, later, end);
    }
  }

  /** The place returned is that of the first query mark of the request, or the end,
      exactly if that mark is not the second or third behind a percent sign that begins
      no code; else it is one too far. */
  lemma QueryMarkExactly(s: string)
    ensures Stop(Items(s, 0), |s|) == FirstMark(s, 0) + if InNoCode(s, 0, FirstMark(s, 0)) then 1 else 0
    ensures Stop(Items(s, 0), |s|) == FirstMark(s, 0) <==> !InNoCode(s, 0, FirstMark(s, 0))
  {
    hide InNoCode, FirstMark;
    StopIs(s, 0);
    PlaceIs(s, 0);
  }

  /** Such a request. */
  lemma QueryMarkLost()
    ensures Place(Items("/%?z", 0), 4) == 2 && Stop(Items("/%?z", 0), 4) == 3
  {
    hide Items, Stop, Place;
    var s := "/%?z";
    StopIs(s, 0);
    StopOne(Item('/', false, 0, 0), Items(s, 1), 4);
    assert Items(s, 0) == [Item('/', false, 0, 0)] + Items(s, 1) by {
      ItemsPlain(s, 0);
    }
    StopEscaped(s, 1);
    assert NoCodeAt(s, 1);
    assert InNoCode(s, 1, 2) && InNoCode(s, 0, 2);
  }

  lemma ItemsPlain(s: string, i: nat)
    requires i < |s| && s[i] != '%'
    ensures Items(s, i) == [Item(s[i], false, i, i)] + Items(s, i + 1)
  {
  }
}
