/** Requests as clients spell them, and the paths they come to. */
module RequestSpelling {
  import opened RequestPath

  /** A character as it is, or as a code whose digits may be of either case. */
  datatype Spelled = Plain(c: char) | Coded(c: char, upperHigh: bool, upperLow: bool)

  /** A percent sign and a query mark must be written as codes; a code stands for a byte. */
  predicate IsSpelled(x: Spelled)
  {
    if x.Plain? then x.c != '%' && x.c != '?' else x.c as int < 256
  }

  predicate AreSpelled(xs: seq<Spelled>)
  {
    forall i :: 0 <= i < |xs| ==> IsSpelled(xs[i])
  }

  /** Hexadecimal digits as in section 2.1 of RFC 3986. */
  function Digit(v: nat, upper: bool): char
    requires v < 16
  {
    if upper then "0123456789ABCDEF"[v] else "0123456789abcdef"[v]
  }

  function Spell(x: Spelled): (s: string)
    requires IsSpelled(x)
    ensures |s| == if x.Plain? then 1 else 3
  {
    if x.Plain? then [x.c] else ['%', Digit(x.c as int / 16, x.upperHigh), Digit(x.c as int % 16, x.upperLow)]
  }

  function SpellAll(xs: seq<Spelled>): string
    requires AreSpelled(xs)
  {
    if xs == [] then "" else Spell(xs[0]) + SpellAll(xs[1..])
  }

  /** Decoded to the same characters, the codes known for codes. */
  predicate Decodes(items: seq<Item>, xs: seq<Spelled>)
  {
    |items| == |xs| && forall i :: 0 <= i < |xs| ==> items[i].c == xs[i].c && items[i].encoded == xs[i].Coded?
  }

  lemma DigitValue(v: nat, upper: bool)
    requires v < 16
    ensures var c := ToUpper(Digit(v, upper));
      IsHex(c) && HexValue(c) == v
  {
    if v >= 10 {
      assert Digit(v, upper) == if upper then 'A' + (v - 10) as char else 'a' + (v - 10) as char;
    } else {
      assert Digit(v, upper) == '0' + v as char;
    }
  }

  lemma OneDecoded(s: string, i: nat, x: Spelled)
    requires IsSpelled(x) && i + |Spell(x)| <= |s| && s[i..i + |Spell(x)|] == Spell(x)
    ensures Items(s, i) == [Item(x.c, x.Coded?, i, i)] + Items(s, i + |Spell(x)|)
  {
    if x.Plain? {
      assert s[i] == s[i..i + 1][0];
    } else {
      var t := s[i..i + 3];
      assert s[i] == t[0] && s[i + 1] == t[1] && s[i + 2] == t[2];
      var high, low := x.c as int / 16, x.c as int % 16;
      DigitValue(high, x.upperHigh);
      DigitValue(low, x.upperLow);
      hide Digit, ToUpper, IsHex, HexValue;
      assert Code(ToUpper(s[i + 1]), ToUpper(s[i + 2])) == x.c;
      assert Escaped(i, ToUpper(s[i + 1]), ToUpper(s[i + 2])) == [Item(x.c, true, i, i)];
    }
  }

  /** However each character is spelled, decoding gives it back. */
  lemma {:induction false} SpellingDecodes(s: string, i: nat, xs: seq<Spelled>)
    requires AreSpelled(xs) && i + |SpellAll(xs)| <= |s| && s[i..i + |SpellAll(xs)|] == SpellAll(xs)
    ensures var items := Items(s, i);
      |items| >= |xs| && Decodes(items[..|xs|], xs) && items[|xs|..] == Items(s, i + |SpellAll(xs)|)
    decreases |xs|
  {
    hide Items, Spell, IsSpelled;
    if xs == [] {
      assert Items(s, i)[0..] == Items(s, i);
    } else {
      var one, later := Spell(xs[0]), SpellAll(xs[1..]);
      assert s[i..i + |SpellAll(xs)|] == one + later;
      Parts(s, i, one, later);
      OneDecoded(s, i, xs[0]);
      SpellingDecodes(s, i + |one|, xs[1..]);
      var items, rest := Items(s, i), Items(s, i + |one|);
      assert items[..|xs|] == [items[0]] + rest[..|xs| - 1] && items[|xs|..] == rest[|xs| - 1..];
    }
  }

  lemma Parts(s: string, i: nat, a: string, b: string)
    requires i + |a + b| <= |s| && s[i..i + |a + b|] == a + b
    ensures s[i..i + |a|] == a && s[i + |a|..i + |a| + |b|] == b
  {
    var t := s[i..i + |a + b|];
    assert s[i..i + |a|] == t[..|a|] && s[i + |a|..i + |a| + |b|] == t[|a|..];
  }

  /** A percent sign that begins no code stands for itself, and what follows it is taken in
      capitals. */
  lemma BadCodeDecodes(s: string, i: nat)
    requires NoCodeAt(s, i)
    ensures var items := Items(s, i);
      && |items| >= 3 && items[0].c == '%' && items[1].c == Capital(s[i + 1]) && items[2].c == Capital(s[i + 2])
      && !items[0].encoded && !items[1].encoded && !items[2].encoded && items[3..] == Items(s, i + 3)
  {
    hide IsHex;
    SameCapital(s[i + 1]);
    SameCapital(s[i + 2]);
  }

  function Capital(c: char): char
  {
    if 97 <= c as int < 123 then "ABCDEFGHIJKLMNOPQRSTUVWXYZ"[c as int - 97] else c
  }

  lemma SameCapital(c: char)
    ensures ToUpper(c) == Capital(c)
  {
  }

  // ----- the path and the query -----------------------------------------------------------------

  /** Up to the mark, or the end. */
  lemma {:induction false} PathIs(items: seq<Item>, n: nat, end: nat)
    requires n <= |items| && (forall i :: 0 <= i < n ==> !IsQuery(items[i])) && (n < |items| ==> IsQuery(items[n]))
    ensures Path(items) == items[..n]
    ensures Stop(items, end) == if n == |items| then end else items[n].stop
  {
    if n > 0 {
      PathIs(items[1..], n - 1, end);
      assert items[..n] == [items[0]] + items[1..][..n - 1];
    }
  }

  /** A spelled text with or without a query behind it: all of it is path, and the query
      begins at its mark. */
  lemma SpelledPath(s: string, xs: seq<Spelled>)
    requires AreSpelled(xs) && SpellAll(xs) <= s && (|SpellAll(xs)| < |s| ==> s[|SpellAll(xs)|] == '?')
    ensures Decodes(Path(Items(s, 0)), xs) && Stop(Items(s, 0), |s|) == |SpellAll(xs)|
  {
    hide Items, Path, Stop;
    var n, items := |SpellAll(xs)|, Items(s, 0);
    SpellingDecodes(s, 0, xs);
    forall i | 0 <= i < |xs| ensures !IsQuery(items[i]) {
      assert items[i] == items[..|xs|][i] && IsSpelled(xs[i]);
    }
    MarkItem(s, n);
    assert |xs| < |items| ==> items[|xs|] == items[|xs|..][0];
    PathIs(items, |xs|, |s|);
  }

  lemma MarkItem(s: string, n: nat)
    requires n <= |s| && (n < |s| ==> s[n] == '?')
    ensures if n == |s| then Items(s, n) == [] else Items(s, n) != [] && Items(s, n)[0] == Item('?', false, n, n)
  {
  }

  // ----- names -----------------------------------------------------------------------------------

  /** A name that is no dot segment and holds no slash; dots written as codes make a name. */
  predicate IsNamed(xs: seq<Spelled>)
  {
    && AreSpelled(xs) && (forall i :: 0 <= i < |xs| ==> xs[i].c != '/' && xs[i].c != '\\')
    && (|xs| > 2 || exists i :: 0 <= i < |xs| && xs[i] != Plain('.'))
  }

  predicate AreNamed(names: seq<seq<Spelled>>)
  {
    forall i :: 0 <= i < |names| ==> IsNamed(names[i])
  }

  /** Names, each behind a slash or a backslash. */
  function Joined(names: seq<seq<Spelled>>, slashs: seq<char>): (xs: seq<Spelled>)
    requires AreNamed(names) && |slashs| == |names| && forall i :: 0 <= i < |slashs| ==> slashs[i] == '/' || slashs[i] == '\\'
    ensures AreSpelled(xs)
  {
    if names == [] then []
    else
      var n := |names| - 1;
      Joined(names[..n], slashs[..n]) + [Plain(slashs[n])] + names[n]
  }

  function NameOf(xs: seq<Spelled>): (s: string)
    ensures |s| == |xs|
  {
    seq(|xs|, i requires 0 <= i < |xs| => xs[i].c)
  }

  function NamesOf(names: seq<seq<Spelled>>): (r: seq<string>)
    ensures |r| == |names|
  {
    seq(|names|, i requires 0 <= i < |names| => NameOf(names[i]))
  }

  /** The names a decoded text comes to, the last segment included. */
  function Live(items: seq<Item>): seq<string>
  {
    Resolve1(Resolve(Ended(items)), Open(items))
  }

  lemma {:induction false} NameMore(items: seq<Item>, g: seq<Item>)
    requires forall i :: 0 <= i < |g| ==> !IsSlash(g[i].c)
    ensures Ended(items + g) == Ended(items) && Open(items + g) == Open(items) + g
    decreases |g|
  {
    hide Ended, Open;
    if g == [] {
      assert items + g == items && Open(items) + g == Open(items);
    } else {
      var init, x := g[..|g| - 1], g[|g| - 1];
      NameMore(items, init);
      ItemsMore(items + init, x);
      assert items + g == items + init + [x] && Open(items) + g == Open(items) + init + [x];
    }
  }

  lemma OneName(items: seq<Item>, slash: Item, g: seq<Item>, xs: seq<Spelled>)
    requires IsSlash(slash.c) && IsNamed(xs) && Decodes(g, xs)
    ensures Live(items + [slash] + g) == Live(items) + [NameOf(xs)] && !Vanishes(Open(items + [slash] + g))
  {
    hide Ended, Open, Resolve, Resolve1;
    ItemsMore(items, slash);
    NameMore(items + [slash], g);
    ResolveMore(Ended(items), Open(items));
    assert [] + g == g;
    Stays(Live(items), g, xs);
  }

  lemma Stays(names: seq<string>, g: seq<Item>, xs: seq<Spelled>)
    requires IsNamed(xs) && Decodes(g, xs)
    ensures !Vanishes(g) && Resolve1(names, g) == names + [NameOf(xs)]
  {
    assert Chars(g) == NameOf(xs);
    if |xs| <= 2 {
      var i :| 0 <= i < |xs| && xs[i] != Plain('.');
      assert !(g[i].c == '.' && !g[i].encoded);
    }
  }

  lemma {:induction false} NamesLive(items: seq<Item>, names: seq<seq<Spelled>>, slashs: seq<char>)
    requires AreNamed(names) && |slashs| == |names| && forall i :: 0 <= i < |slashs| ==> slashs[i] == '/' || slashs[i] == '\\'
    requires Decodes(items, Joined(names, slashs))
    ensures Live(items) == NamesOf(names) && (names != [] ==> !Vanishes(Open(items)))
    decreases |names|
  {
    hide Live, Open, Vanishes, IsNamed;
    if names == [] {
      NoneLive();
    } else {
      var n := |names| - 1;
      var front := Joined(names[..n], slashs[..n]);
      var a, b, c := items[..|front|], items[|front|], items[|front| + 1..];
      var all := Joined(names, slashs);
      assert all == front + [Plain(slashs[n])] + names[n];
      assert items == a + [b] + c;
      assert forall i :: 0 <= i < |front| ==> all[i] == front[i];
      assert all[|front|] == Plain(slashs[n]) && all[|front| + 1..] == names[n];
      assert forall i :: 0 <= i < |names[n]| ==> all[|front| + 1 + i] == names[n][i];
      NamesLive(a, names[..n], slashs[..n]);
      OneName(a, b, c, names[n]);
      assert NamesOf(names) == NamesOf(names[..n]) + [NameOf(names[n])];
    }
  }

  lemma NoneLive()
    ensures Live([]) == []
  {
  }

  /** Any names, spelled in any way behind slashs or backslashs, with or without a query, come
      to the same names behind slashs, and the query begins at its mark. */
  lemma NamesComeBack(s: string, names: seq<seq<Spelled>>, slashs: seq<char>)
    requires AreNamed(names) && |slashs| == |names| > 0 && forall i :: 0 <= i < |slashs| ==> slashs[i] == '/' || slashs[i] == '\\'
    requires var text := SpellAll(Joined(names, slashs)); text <= s && (|text| < |s| ==> s[|text|] == '?')
    ensures Normalised(Path(Items(s, 0)), false) == Text(NamesOf(names))
    ensures Stop(Items(s, 0), |s|) == |SpellAll(Joined(names, slashs))|
  {
    hide Items, Path, Stop, SpellAll, Joined, NamesOf, Text, Resolve, Resolve1, Ended, Open, Vanishes, IsNamed;
    SpelledPath(s, Joined(names, slashs));
    NamesLive(Path(Items(s, 0)), names, slashs);
    assert Text(NamesOf(names)) + "" == Text(NamesOf(names));
  }
}
