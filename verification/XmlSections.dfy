/** Character data and comments: what the two scans that never look back make of them. */
module XmlSections {
  import opened Xml

  // ----- where a text stands in the document ------------------------------------------------

  predicate At(doc: string, p: nat, t: string)
  {
    p + |t| <= |doc| && doc[p..p + |t|] == t
  }

  lemma AtBoth(doc: string, p: nat, a: string, b: string)
    requires At(doc, p, a + b)
    ensures At(doc, p, a) && At(doc, p + |a|, b)
  {
    var s := doc[p..p + |a + b|];
    assert s[..|a|] == a && s[|a|..] == b;
    assert doc[p..p + |a|] == s[..|a|];
    assert doc[p + |a|..p + |a| + |b|] == s[|a|..];
  }

  lemma AtJoin(doc: string, p: nat, a: string, b: string)
    requires At(doc, p, a) && At(doc, p + |a|, b)
    ensures At(doc, p, a + b)
  {
    assert doc[p..p + |a + b|] == doc[p..p + |a|] + doc[p + |a|..p + |a| + |b|];
  }

  lemma AtChar(doc: string, p: nat, t: string, i: nat)
    requires At(doc, p, t) && i < |t|
    ensures doc[p + i] == t[i]
  {
    assert doc[p..p + |t|][i] == t[i];
  }

  lemma AtIs(doc: string, p: nat, t: string)
    requires At(doc, p, t)
    ensures p + |t| <= |doc| && doc[p..p + |t|] == t
  {
  }

  // ----- delimiters and what they hide -----------------------------------------------------------

  /** A character, and how many delimiters in front of it are passed over with it. */
  datatype Mark = Mark(skipped: nat, c: char)

  /** One delimiter hides in front of any other character, two in front of all but the '>'
      that would end the section. */
  predicate IsMark(m: Mark, d: char)
  {
    m.skipped <= 2 && m.c != if m.skipped == 2 then '>' else d
  }

  predicate AreMarks(ms: seq<Mark>, d: char)
  {
    forall i :: 0 <= i < |ms| ==> IsMark(ms[i], d)
  }

  function Delimiters(d: char, n: nat): (s: string)
    ensures |s| == n
  {
    seq(n, _ => d)
  }

  /** How the marks stand in a document. */
  function Written(ms: seq<Mark>, d: char): string
  {
    if ms == [] then "" else Delimiters(d, ms[0].skipped) + [ms[0].c] + Written(ms[1..], d)
  }

  /** What is left of them without the delimiters. */
  function Chars(ms: seq<Mark>): (s: string)
    ensures |s| == |ms|
  {
    seq(|ms|, i requires 0 <= i < |ms| => ms[i].c)
  }

  lemma WrittenAt(doc: string, p: nat, ms: seq<Mark>, d: char, end: string)
    requires ms != [] && IsMark(ms[0], d) && At(doc, p, Written(ms, d) + end)
    ensures var n := ms[0].skipped;
      && p + n < |doc| && doc[p + n] == ms[0].c && (forall i :: p <= i < p + n ==> doc[i] == d)
      && At(doc, p + n + 1, Written(ms[1..], d) + end)
      && |Written(ms, d)| == n + 1 + |Written(ms[1..], d)|
  {
    var front, later := Delimiters(d, ms[0].skipped), Written(ms[1..], d) + end;
    assert Written(ms, d) + end == front + ([ms[0].c] + later);
    AtBoth(doc, p, front, [ms[0].c] + later);
    AtBoth(doc, p + |front|, [ms[0].c], later);
    AtChar(doc, p + |front|, [ms[0].c], 0);
    forall i | p <= i < p + |front| ensures doc[i] == d {
      AtChar(doc, p, front, i - p);
    }
  }

  lemma CharsCons(ms: seq<Mark>)
    requires ms != []
    ensures Chars(ms) == [ms[0].c] + Chars(ms[1..])
  {
  }

  /** The end "]]>" or "-->" stands at `p`. */
  lemma EndAt(doc: string, p: nat, d: char)
    requires At(doc, p, [d, d, '>'])
    ensures p + 3 <= |doc| && doc[p] == d && doc[p + 1] == d && doc[p + 2] == '>'
  {
    AtChar(doc, p, [d, d, '>'], 0);
    AtChar(doc, p, [d, d, '>'], 1);
    AtChar(doc, p, [d, d, '>'], 2);
  }

  // ----- character data ---------------------------------------------------------------------------

  /** Character data loses the brackets its marks pass over, and nothing else. */
  lemma {:induction false} CDataReads(doc: string, p: nat, ms: seq<Mark>)
    requires AreMarks(ms, ']') && At(doc, p, Written(ms, ']') + "]]>")
    ensures CData(doc, p) == Found(Chars(ms), p + |Written(ms, ']')| + 2)
    decreases |ms|
  {
    hide At, Written, Chars, CData;
    AtIs(doc, p, Written(ms, ']') + "]]>");
    if ms == [] {
      WrittenNothing(']');
      assert "" + "]]>" == [']', ']', '>'];
      EndAt(doc, p, ']');
      CDataEnds(doc, p);
    } else {
      WrittenAt(doc, p, ms, ']', "]]>");
      CDataReads(doc, p + ms[0].skipped + 1, ms[1..]);
      CDataMark(doc, p, ms[0]);
      CharsCons(ms);
    }
  }

  lemma WrittenNothing(d: char)
    ensures Written([], d) == "" && Chars([]) == ""
  {
  }

  lemma CDataEnds(doc: string, p: nat)
    requires p + 3 <= |doc| && doc[p] == ']' && doc[p + 1] == ']' && doc[p + 2] == '>'
    ensures CData(doc, p) == Found("", p + 2)
  {
  }

  lemma CDataMark(doc: string, p: nat, m: Mark)
    requires IsMark(m, ']') && p + m.skipped < |doc| && doc[p + m.skipped] == m.c
    requires forall i :: p <= i < p + m.skipped ==> doc[i] == ']'
    ensures CData(doc, p) == WithChar(m.c, CData(doc, p + m.skipped + 1))
  {
  }

  /** Whatever character data ends at all is such marks. */
  lemma {:induction false} CDataOnly(doc: string, p: nat) returns (ms: seq<Mark>)
    requires p <= |doc| && CData(doc, p).Found?
    ensures AreMarks(ms, ']') && At(doc, p, Written(ms, ']') + "]]>")
    ensures CData(doc, p) == Found(Chars(ms), p + |Written(ms, ']')| + 2)
    decreases |doc| - p
  {
    var n := if doc[p] != ']' then 0 else if doc[p + 1] != ']' then 1 else 2;
    if n == 2 && doc[p + 2] == '>' {
      ms := [];
      assert doc[p..p + 3] == "" + "]]>";
    } else {
      var m := Mark(n, doc[p + n]);
      CDataMark(doc, p, m);
      var later := CDataOnly(doc, p + n + 1);
      ms := [m] + later;
      WrittenJoin(doc, p, m, later, ']', "]]>");
    }
    CDataReads(doc, p, ms);
  }

  lemma WrittenJoin(doc: string, p: nat, m: Mark, later: seq<Mark>, d: char, end: string)
    requires p + m.skipped < |doc| && doc[p + m.skipped] == m.c
    requires forall i :: p <= i < p + m.skipped ==> doc[i] == d
    requires At(doc, p + m.skipped + 1, Written(later, d) + end)
    ensures At(doc, p, Written([m] + later, d) + end)
  {
    var front := Delimiters(d, m.skipped);
    assert doc[p..p + m.skipped] == front;
    assert doc[p + m.skipped..p + m.skipped + 1] == [m.c];
    AtJoin(doc, p, front, [m.c]);
    AtJoin(doc, p, front + [m.c], Written(later, d) + end);
    assert ([m] + later)[1..] == later;
    assert Written([m] + later, d) == front + [m.c] + Written(later, d);
    assert Written([m] + later, d) + end == front + [m.c] + (Written(later, d) + end);
  }

  lemma {:induction false} WrittenSize(ms: seq<Mark>, d: char)
    ensures |Written(ms, d)| >= |ms|
    ensures |Written(ms, d)| == |ms| ==> forall i :: 0 <= i < |ms| ==> ms[i].skipped == 0
    decreases |ms|
  {
    if ms != [] {
      WrittenSize(ms[1..], d);
    }
  }

  /** Character data comes back as it is exactly if it has no bracket at all. */
  lemma CDataExactly(doc: string, p: nat, t: string)
    requires At(doc, p, t + "]]>")
    ensures CData(doc, p) == Found(t, p + |t| + 2) <==> ']' !in t
  {
    hide CData, Written, Chars;
    AtIs(doc, p, t + "]]>");
    if ']' !in t {
      var ms := seq(|t|, i requires 0 <= i < |t| => Mark(0, t[i]));
      PlainWritten(t, ms, ']');
      CharsAre(t, ms);
      CDataReads(doc, p, ms);
    } else if CData(doc, p) == Found(t, p + |t| + 2) {
      var ms := CDataOnly(doc, p);
      WrittenSize(ms, ']');
      forall i | 0 <= i < |t| ensures t[i] != ']' {
        CharsAt(ms, i);
        assert IsMark(ms[i], ']');
      }
    }
  }

  lemma CharsAre(t: string, ms: seq<Mark>)
    requires |ms| == |t| && forall i :: 0 <= i < |t| ==> ms[i].c == t[i]
    ensures Chars(ms) == t
  {
  }

  lemma CharsAt(ms: seq<Mark>, i: nat)
    requires i < |ms|
    ensures Chars(ms)[i] == ms[i].c
  {
  }

  lemma {:induction false} PlainWritten(t: string, ms: seq<Mark>, d: char)
    requires |ms| == |t| && forall i :: 0 <= i < |t| ==> ms[i] == Mark(0, t[i])
    ensures Written(ms, d) == t
    decreases |t|
  {
    if t != "" {
      PlainWritten(t[1..], ms[1..], d);
      assert Delimiters(d, 0) + [t[0]] == [t[0]];
      assert [t[0]] + t[1..] == t;
    }
  }

  // ----- comments -------------------------------------------------------------------------------------

  /** A comment ends behind its marks. */
  lemma {:induction false} CommentReads(doc: string, p: nat, ms: seq<Mark>)
    requires AreMarks(ms, '-') && At(doc, p, Written(ms, '-') + "-->")
    ensures CommentEnd(doc, p, '-', '-') == p + |Written(ms, '-')| + 2
    decreases |ms|
  {
    hide At, Written, CommentEnd;
    AtIs(doc, p, Written(ms, '-') + "-->");
    if ms == [] {
      WrittenNothing('-');
      assert "" + "-->" == ['-', '-', '>'];
      EndAt(doc, p, '-');
      CommentEnds(doc, p);
    } else {
      WrittenAt(doc, p, ms, '-', "-->");
      CommentReads(doc, p + ms[0].skipped + 1, ms[1..]);
      CommentMark(doc, p, ms[0]);
    }
  }

  lemma CommentEnds(doc: string, p: nat)
    requires p + 3 <= |doc| && doc[p] == '-' && doc[p + 1] == '-' && doc[p + 2] == '>'
    ensures CommentEnd(doc, p, '-', '-') == p + 2
  {
  }

  lemma CommentMark(doc: string, p: nat, m: Mark)
    requires IsMark(m, '-') && p + m.skipped < |doc| && doc[p + m.skipped] == m.c
    requires forall i :: p <= i < p + m.skipped ==> doc[i] == '-'
    ensures CommentEnd(doc, p, '-', '-') == CommentEnd(doc, p + m.skipped + 1, '-', '-')
  {
  }

  /** Whatever comment ends at all is such marks. */
  lemma {:induction false} CommentOnly(doc: string, p: nat) returns (ms: seq<Mark>)
    requires p <= |doc| && CommentEnd(doc, p, '-', '-') < |doc|
    ensures AreMarks(ms, '-') && At(doc, p, Written(ms, '-') + "-->")
    decreases |doc| - p
  {
    var n := if doc[p] != '-' then 0 else if doc[p + 1] != '-' then 1 else 2;
    if n == 2 && doc[p + 2] == '>' {
      ms := [];
      assert doc[p..p + 3] == "" + "-->";
    } else {
      var m := Mark(n, doc[p + n]);
      CommentMark(doc, p, m);
      var later := CommentOnly(doc, p + n + 1);
      ms := [m] + later;
      WrittenJoin(doc, p, m, later, '-', "-->");
    }
  }
}
