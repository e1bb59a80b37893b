/**
Recovering a quote up to white space (tools/local_classification_audit.py): the span that comes
back is verbatim text of one document, and it is found whenever there is one.
*/
module ExactQuote {
  import opened Sequences
  import opened Wrappers

  /** The characters that Unicode, and so str.isspace, strip and the pattern \s, count as white space. */
  predicate IsSpace(c: char) {
    var n := c as int;
    || 0x09 <= n <= 0x0D || 0x1C <= n <= 0x20 || n == 0x85 || n == 0xA0 || n == 0x1680
    || 0x2000 <= n <= 0x200A || n == 0x2028 || n == 0x2029 || n == 0x202F || n == 0x205F || n == 0x3000
  }

  /** The text without its white space. */
  function Compact(s: string): (r: string)
    ensures |r| <= |s|
  {
    if s == "" then ""
    else Compact(s[..|s| - 1]) + if IsSpace(s[|s| - 1]) then "" else [s[|s| - 1]]
  }

  /** Where the other characters are. */
  function Positions(s: string): (r: seq<nat>)
    ensures |r| == |Compact(s)|
    ensures forall i :: 0 <= i < |r| ==> r[i] < |s| && !IsSpace(s[r[i]])
    ensures forall i, j :: 0 <= i < j < |r| ==> r[i] < r[j]
  {
    if s == "" then []
    else Positions(s[..|s| - 1]) + if IsSpace(s[|s| - 1]) then [] else [|s| - 1]
  }

  function StripLeft(s: string): (r: string)
    ensures |r| <= |s|
  {
    if s == "" || !IsSpace(s[0]) then s else StripLeft(s[1..])
  }

  function StripRight(s: string): (r: string)
    ensures |r| <= |s|
  {
    if s == "" || !IsSpace(s[|s| - 1]) then s else StripRight(s[..|s| - 1])
  }

  function Strip(s: string): string {
    StripLeft(StripRight(s))
  }

  predicate OccursAt(part: string, text: string, k: int) {
    0 <= k && k + |part| <= |text| && text[k..k + |part|] == part
  }

  predicate Occurs(part: string, text: string) {
    exists k :: 0 <= k <= |text| - |part| && OccursAt(part, text, k)
  }

  /** The first place of `part` in `text`, from `k` on. */
  function Find(part: string, text: string, k: nat): (r: Option<nat>)
    ensures r.Some? ==> OccursAt(part, text, r.value)
    ensures r.Some? ==> forall i :: k <= i < r.value ==> !OccursAt(part, text, i)
    ensures r.None? ==> forall i :: k <= i ==> !OccursAt(part, text, i)
    decreases |text| - k
  {
    if OccursAt(part, text, k) then Some(k)
    else if k + |part| >= |text| then None
    else Find(part, text, k + 1)
  }

  function ExactQuote(quote: Option<string>, text: string): (r: string) {
    if quote.None? || |Strip(quote.value)| < 8 then ""
    else if Occurs(quote.value, text) then quote.value
    else Recover(Compact(quote.value), text)
  }

  /** The span of the text that compacts to `compact`, if there is one. */
  function Recover(compact: string, text: string): (r: string)
  {
    var positions := Positions(text);
    var start := Find(compact, Compact(text), 0);
    if compact != "" && start.Some? then text[positions[start.value]..positions[start.value + |compact| - 1] + 1]
      else ""
  }

  // --- compaction ---

  lemma CompactAppend(s: string, c: char)
    ensures Compact(s + [c]) == Compact(s) + if IsSpace(c) then "" else [c]
  {
    assert (s + [c])[..|s|] == s;
  }

  lemma {:induction false} CompactConcat(a: string, b: string)
    ensures Compact(a + b) == Compact(a) + Compact(b)
    decreases |b|
  {
    if b == "" {
      assert a + b == a;
    } else {
      var init, c := b[..|b| - 1], b[|b| - 1];
      CompactConcat(a, init);
      CompactAppend(a + init, c);
      CompactAppend(init, c);
      hide Compact;
      assert b == init + [c];
      Associate(a, init, [c]);
      Associate(Compact(a), Compact(init), if IsSpace(c) then "" else [c]);
    }
  }

  /** Before the i-th kept character there are i of them. */
  lemma {:induction false} KeptBefore(s: string, i: nat)
    requires i < |Positions(s)|
    ensures |Compact(s[..Positions(s)[i]])| == i
  {
    var init := s[..|s| - 1];
    if i < |Positions(init)| {
      KeptBefore(init, i);
      assert init[..Positions(init)[i]] == s[..Positions(init)[i]];
    }
  }

  lemma PrefixIs(s: string, k: nat, i: nat)
    requires k <= |s| && |Compact(s[..k])| == i
    ensures i <= |Compact(s)| && Compact(s[..k]) == Compact(s)[..i]
  {
    CompactConcat(s[..k], s[k..]);
    assert s[..k] + s[k..] == s;
  }

  /** The text before the i-th kept character compacts to the first i of them, and one more with it. */
  lemma PrefixCompacts(s: string, i: nat)
    requires i < |Positions(s)|
    ensures Compact(s[..Positions(s)[i]]) == Compact(s)[..i]
    ensures Compact(s[..Positions(s)[i] + 1]) == Compact(s)[..i + 1]
  {
    hide Compact, Positions, IsSpace;
    var p := Positions(s)[i];
    KeptBefore(s, i);
    PrefixIs(s, p, i);
    CompactAppend(s[..p], s[p]);
    assert s[..p] + [s[p]] == s[..p + 1];
    PrefixIs(s, p + 1, i + 1);
  }

  /** The span from one kept character to another compacts to what lies between them. */
  lemma {:induction false} SpanCompacts(s: string, i: nat, j: nat)
    requires i <= j < |Positions(s)|
    ensures Positions(s)[i] <= Positions(s)[j] < |s|
    ensures Compact(s[Positions(s)[i]..Positions(s)[j] + 1]) == Compact(s)[i..j + 1]
  {
    PrefixCompacts(s, i);
    PrefixCompacts(s, j);
    assert i < j ==> Positions(s)[i] < Positions(s)[j];
    hide Compact, IsSpace, Positions;
    CompactBetween(s, Positions(s)[i], Positions(s)[j] + 1, i, j + 1);
  }

  lemma CompactBetween(s: string, a: nat, b: nat, i: nat, j: nat)
    requires a <= b <= |s| && i <= j <= |Compact(s)|
    requires Compact(s[..a]) == Compact(s)[..i] && Compact(s[..b]) == Compact(s)[..j]
    ensures Compact(s[a..b]) == Compact(s)[i..j]
  {
    hide Compact;
    assert s[..a] + s[a..b] == s[..b];
    CompactConcat(s[..a], s[a..b]);
    Suffix(Compact(s), i, j, Compact(s[a..b]));
  }

  lemma Suffix(s: string, i: nat, j: nat, x: string)
    requires i <= j <= |s| && s[..j] == s[..i] + x
    ensures x == s[i..j]
  {
    assert s[..j] == s[..i] + s[i..j];
  }

  lemma {:induction false} StripKeepsCompact(s: string)
    ensures Compact(StripRight(s)) == Compact(s)
  {
    if s != "" && IsSpace(s[|s| - 1]) {
      StripKeepsCompact(s[..|s| - 1]);
    }
  }

  /** A quote with something in it besides white space. */
  lemma {:induction false} SomethingLeft(s: string)
    requires StripLeft(s) != ""
    ensures Compact(s) != ""
  {
    assert s == [s[0]] + s[1..];
    CompactConcat([s[0]], s[1..]);
    CompactAppend("", s[0]);
    assert "" + [s[0]] == [s[0]];
    if IsSpace(s[0]) {
      SomethingLeft(s[1..]);
    }
  }

  lemma LongEnoughIsNotEmpty(q: string)
    requires |Strip(q)| >= 8
    ensures Compact(q) != ""
  {
    StripKeepsCompact(q);
    SomethingLeft(StripRight(q));
  }

  lemma OccursCompacted(part: string, text: string)
    requires Occurs(part, text)
    ensures Occurs(Compact(part), Compact(text))
  {
    var k :| 0 <= k <= |text| - |part| && OccursAt(part, text, k);
    var e := k + |part|;
    assert text == text[..k] + text[k..e] + text[e..];
    CompactConcat(text[..k] + text[k..e], text[e..]);
    CompactConcat(text[..k], text[k..e]);
    Middle(Compact(text[..k]), Compact(part), Compact(text[e..]));
  }

  lemma Middle(a: string, b: string, c: string)
    ensures Occurs(b, a + b + c)
  {
    assert OccursAt(b, a + b + c, |a|);
  }

  lemma RecoveredCompacts(compact: string, text: string)
    ensures var r := Recover(compact, text);
      r == "" || (Occurs(r, text) && Compact(r) == compact)
  {
    hide Compact, Positions;
    var positions, found := Positions(text), Find(compact, Compact(text), 0);
    if compact != "" && found.Some? {
      var start, end := found.value, found.value + |compact| - 1;
      SpanCompacts(text, start, end);
      assert Compact(text)[start..end + 1] == compact;
      SpanOccurs(text, positions[start], positions[end] + 1);
    }
  }

  lemma SpanOccurs(text: string, i: nat, j: nat)
    requires i <= j <= |text|
    ensures Occurs(text[i..j], text)
  {
    assert OccursAt(text[i..j], text, i);
  }

  lemma RecoveredIff(compact: string, text: string)
    requires compact != ""
    ensures Recover(compact, text) != "" <==> Occurs(compact, Compact(text))
  {
    hide Compact, Positions;
    var found := Find(compact, Compact(text), 0);
    if found.Some? {
      SpanCompacts(text, found.value, found.value + |compact| - 1);
      assert OccursAt(compact, Compact(text), found.value);
    }
  }

  /** Sound: what comes back stands in the text, and differs from the quote in white space only. */
  lemma QuoteIsVerbatim(quote: Option<string>, text: string)
    ensures var r := ExactQuote(quote, text);
      r == "" || (quote.Some? && Occurs(r, text) && Compact(r) == Compact(quote.value))
  {
    hide Compact, Strip, Recover, Occurs;
    if quote.Some? {
      RecoveredCompacts(Compact(quote.value), text);
    }
  }

  /**
  Complete: for a quote of eight characters or more, something comes back exactly when the compacted quote
  occurs in the compacted text.
  */
  lemma QuoteIsFoundIff(quote: string, text: string)
    requires |Strip(quote)| >= 8
    ensures ExactQuote(Some(quote), text) != "" <==> Occurs(Compact(quote), Compact(text))
  {
    LongEnoughIsNotEmpty(quote);
    if Occurs(quote, text) {
      OccursCompacted(quote, text);
    }
    NothingCompacts();
    hide Compact, Strip, Recover, Occurs;
    RecoveredIff(Compact(quote), text);
  }

  lemma NothingCompacts()
    ensures Compact("") == ""
  {
  }

  // --- over the documents of an item ---

  function FirstQuote(quote: Option<string>, docs: seq<string>): string {
    if docs == [] then ""
    else
      var q := ExactQuote(quote, docs[0]);
      if q != "" then q else FirstQuote(quote, docs[1..])
  }

  lemma {:induction false} FirstQuoteIsVerbatim(quote: Option<string>, docs: seq<string>)
    ensures var r := FirstQuote(quote, docs);
      r == "" || (quote.Some? && Compact(r) == Compact(quote.value) && exists d :: d in docs && Occurs(r, d))
  {
    if docs != [] {
      QuoteIsVerbatim(quote, docs[0]);
      FirstQuoteIsVerbatim(quote, docs[1..]);
      hide ExactQuote, Compact, Occurs;
      var r := FirstQuote(quote, docs);
      if r != "" {
        if ExactQuote(quote, docs[0]) != "" {
          assert docs[0] in docs && Occurs(r, docs[0]);
        } else {
          var d :| d in docs[1..] && Occurs(r, d);
          assert d in docs;
        }
      }
    }
  }

  /** A quote is found exactly when one single document contains it up to white space. */
  lemma {:induction false} FirstQuoteIsFoundIff(quote: string, docs: seq<string>)
    requires |Strip(quote)| >= 8
    ensures FirstQuote(Some(quote), docs) != "" <==> exists d :: d in docs && Occurs(Compact(quote), Compact(d))
  {
    if docs != [] {
      QuoteIsFoundIff(quote, docs[0]);
      FirstQuoteIsFoundIff(quote, docs[1..]);
      hide ExactQuote, Compact, Occurs;
      assert forall d :: d in docs <==> d == docs[0] || d in docs[1..];
    }
  }

  // --- the suggestion of an item ---

  datatype Relation = OwnCompany | GroupCompany | External | Mixed | Pending

  datatype Suggestion = Suggestion(
    relation: Relation, topicPending: bool, confidence: real, issuer: string, quote: string, saysNoReview: bool)

  datatype Verdict = Verdict(quote: string, quoteVerified: bool, needsReview: bool)

  function Judge(s: Suggestion, docs: seq<string>): Verdict {
    var recovered := FirstQuote(Some(s.quote), docs);
    var verified := recovered != "";
    Verdict(if verified then recovered else s.quote, verified,
            !s.saysNoReview || !verified || s.confidence < 0.85 || s.relation in {Mixed, Pending} || s.topicPending ||
              s.issuer == "")
  }

  /** Whatever escapes review shows a verbatim passage of one document. */
  lemma UnreviewedIsVerbatim(s: Suggestion, docs: seq<string>)
    ensures var v := Judge(s, docs);
      && (!v.needsReview ==> v.quoteVerified)
      && (v.quoteVerified ==> Compact(v.quote) == Compact(s.quote) && exists d :: d in docs && Occurs(v.quote, d))
      && (v.quoteVerified <==> |Strip(s.quote)| >= 8 && exists d :: d in docs && Occurs(Compact(s.quote), Compact(d)))
  {
    FirstQuoteIsVerbatim(Some(s.quote), docs);
    if |Strip(s.quote)| >= 8 {
      FirstQuoteIsFoundIff(s.quote, docs);
    } else {
      ShortFindsNothing(s.quote, docs);
    }
  }

  lemma {:induction false} ShortFindsNothing(quote: string, docs: seq<string>)
    requires |Strip(quote)| < 8
    ensures FirstQuote(Some(quote), docs) == ""
  {
    if docs != [] {
      ShortFindsNothing(quote, docs[1..]);
    }
  }
}
