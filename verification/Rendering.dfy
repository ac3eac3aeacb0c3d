/** Telegram rendering: HTML escaping, greedy chunking under a budget, parts or a notice. */
module Rendering {
  import opened Wrappers
  import opened Text
  import opened Directory
  import opened Protocol

  const TELEGRAM_MESSAGE_LIMIT := 4096
  const ESCAPED_BODY_BUDGET := 3500
  const MAX_MIRROR_PARTS := 4
  const MAX_PLAINTEXT := 512 * 1024

  // ---- escaping ----

  /** Replaces every occurrence of one character. */
  function Replace(s: string, c: char, entity: string): string {
    if s == [] then [] else Replace(s[..|s| - 1], c, entity) + if s[|s| - 1] == c then entity else [s[|s| - 1]]
  }

  /** Five replacements one after the other, the ampersand first. */
  function Escape(s: string): string {
    Replace(Replace(Replace(Replace(Replace(s, '&', "&amp;"), '<', "&lt;"), '>', "&gt;"), '"', "&quot;"), '\'', "&#x27;")
  }

  function EscapeChar(c: char): (r: string)
    ensures 1 <= |r| <= 6
  {
    match c
    case '&' => "&amp;"
    case '<' => "&lt;"
    case '>' => "&gt;"
    case '"' => "&quot;"
    case '\'' => "&#x27;"
    case _ => [c]
  }

  lemma {:induction false} ReplaceConcat(a: string, b: string, c: char, entity: string)
    ensures Replace(a + b, c, entity) == Replace(a, c, entity) + Replace(b, c, entity)
  {
    if b == [] {
      assert a + b == a;
    } else {
      var n := |b| - 1;
      assert (a + b)[..|a + b| - 1] == a + b[..n];
      ReplaceConcat(a, b[..n], c, entity);
    }
  }

  lemma {:induction false} ReplaceNothing(s: string, c: char, entity: string)
    requires c !in s
    ensures Replace(s, c, entity) == s
  {
    if s != [] {
      ReplaceNothing(s[..|s| - 1], c, entity);
    }
  }

  lemma ReplaceOne(c: char, d: char, entity: string)
    ensures Replace([c], d, entity) == if c == d then entity else [c]
  {
    assert [c][..0] == [];
    assert Replace([], d, entity) == [];
  }

  /** The replacements do not disturb one another: escaping works character by character. */
  lemma EscapeOne(c: char)
    ensures Escape([c]) == EscapeChar(c)
  {
    hide Replace;
    ReplaceOne(c, '&', "&amp;");
    ReplaceOne(c, '<', "&lt;");
    ReplaceOne(c, '>', "&gt;");
    ReplaceOne(c, '"', "&quot;");
    ReplaceOne(c, '\'', "&#x27;");
    if c == '&' {
      ReplaceNothing("&amp;", '<', "&lt;");
      ReplaceNothing("&amp;", '>', "&gt;");
      ReplaceNothing("&amp;", '"', "&quot;");
      ReplaceNothing("&amp;", '\'', "&#x27;");
    } else if c == '<' {
      ReplaceNothing("&lt;", '>', "&gt;");
      ReplaceNothing("&lt;", '"', "&quot;");
      ReplaceNothing("&lt;", '\'', "&#x27;");
    } else if c == '>' {
      ReplaceNothing("&gt;", '"', "&quot;");
      ReplaceNothing("&gt;", '\'', "&#x27;");
    } else if c == '"' {
      ReplaceNothing("&quot;", '\'', "&#x27;");
    }
  }

  lemma EscapeConcat(a: string, b: string)
    ensures Escape(a + b) == Escape(a) + Escape(b)
  {
    var a1, b1 := Replace(a, '&', "&amp;"), Replace(b, '&', "&amp;");
    ReplaceConcat(a, b, '&', "&amp;");
    var a2, b2 := Replace(a1, '<', "&lt;"), Replace(b1, '<', "&lt;");
    ReplaceConcat(a1, b1, '<', "&lt;");
    var a3, b3 := Replace(a2, '>', "&gt;"), Replace(b2, '>', "&gt;");
    ReplaceConcat(a2, b2, '>', "&gt;");
    var a4, b4 := Replace(a3, '"', "&quot;"), Replace(b3, '"', "&quot;");
    ReplaceConcat(a3, b3, '"', "&quot;");
    ReplaceConcat(a4, b4, '\'', "&#x27;");
  }

  /** The escaped length, summed character by character. */
  function Weight(s: string): (n: nat)
    ensures |s| <= n <= 6 * |s|
  {
    if s == [] then 0 else Weight(s[..|s| - 1]) + |EscapeChar(s[|s| - 1])|
  }

  lemma EscapeNothing()
    ensures Escape([]) == []
  {
    assert Replace([], '&', "&amp;") == [];
  }

  lemma {:induction false} EscapedLength(s: string)
    ensures |Escape(s)| == Weight(s)
  {
    hide Escape;
    if s == [] {
      EscapeNothing();
    } else {
      var n := |s| - 1;
      EscapedLength(s[..n]);
      assert s == s[..n] + [s[n]];
      EscapeConcat(s[..n], [s[n]]);
      EscapeOne(s[n]);
    }
  }

  lemma {:induction false} WeightConcat(a: string, b: string)
    ensures Weight(a + b) == Weight(a) + Weight(b)
  {
    if b == [] {
      assert a + b == a;
    } else {
      var n := |b| - 1;
      assert (a + b)[..|a + b| - 1] == a + b[..n];
      WeightConcat(a, b[..n]);
    }
  }

  lemma WeightBetween(s: string, i: nat, j: nat)
    requires i <= j <= |s|
    ensures Weight(s[i..j]) == Weight(s[..j]) - Weight(s[..i])
  {
    assert s[..j] == s[..i] + s[i..j];
    WeightConcat(s[..i], s[i..j]);
  }

  lemma WeightGrows(s: string, i: nat, j: nat)
    requires i <= j <= |s|
    ensures Weight(s[..i]) + (j - i) <= Weight(s[..j])
  {
    WeightBetween(s, i, j);
  }

  // ---- chunking ----

  function Concat(pieces: seq<string>): string {
    if pieces == [] then [] else Concat(pieces[..|pieces| - 1]) + pieces[|pieces| - 1]
  }

  /** A way to cut the text into pieces whose escaped forms fit the budget. */
  predicate Fits(pieces: seq<string>) {
    forall i :: 0 <= i < |pieces| ==> |Escape(pieces[i])| <= ESCAPED_BODY_BUDGET
  }

  /** Where greedy cutting from start ends: as far as the budget goes. */
  predicate FarthestEnd(text: string, start: nat, end: nat) {
    && start <= end <= |text|
    && Weight(text[start..end]) <= ESCAPED_BODY_BUDGET
    && (end < |text| ==> ESCAPED_BODY_BUDGET < Weight(text[start..end + 1]))
  }

  predicate Rises(cuts: seq<nat>, i: int, n: nat)
    requires 0 <= i < |cuts| - 1
  {
    cuts[i] <= cuts[i + 1] <= n
  }

  predicate Ascending(cuts: seq<nat>, n: nat) {
    forall i :: 0 <= i < |cuts| - 1 ==> Rises(cuts, i, n)
  }

  predicate FarthestCut(text: string, cuts: seq<nat>, i: int)
    requires 0 <= i < |cuts| - 1
  {
    cuts[i] < cuts[i + 1] && FarthestEnd(text, cuts[i], cuts[i + 1])
  }

  /** Greedy cuts from the start to the end of the text, each one as far as the budget goes. */
  predicate Greedy(text: string, cuts: seq<nat>) {
    && cuts != [] && cuts[0] == 0 && cuts[|cuts| - 1] == |text|
    && Ascending(cuts, |text|)
    && forall i :: 0 <= i < |cuts| - 1 ==> FarthestCut(text, cuts, i)
  }

  function PiecesAt(text: string, cuts: seq<nat>): (r: seq<string>)
    requires cuts != [] && Ascending(cuts, |text|)
    ensures |r| == |cuts| - 1
  {
    seq(|cuts| - 1, i requires 0 <= i < |cuts| - 1 => Piece(text, cuts, i))
  }

  function Piece(text: string, cuts: seq<nat>, i: nat): string
    requires i < |cuts| - 1 && Ascending(cuts, |text|)
  {
    assert Rises(cuts, i, |text|);
    text[cuts[i]..cuts[i + 1]]
  }

  /** Binary search: how many sums do not exceed the bound. */
  method BisectRight(sums: seq<nat>, bound: nat) returns (n: nat)
    requires forall i, j :: 0 <= i < j < |sums| ==> sums[i] <= sums[j]
    ensures n <= |sums|
    ensures forall i :: 0 <= i < n ==> sums[i] <= bound
    ensures forall i :: n <= i < |sums| ==> bound < sums[i]
  {
    n := 0;
    var high := |sums|;
    while n < high
      invariant n <= high <= |sums|
      invariant forall i :: 0 <= i < n ==> sums[i] <= bound
      invariant forall i :: high <= i < |sums| ==> bound < sums[i]
    {
      var middle := (n + high) / 2;
      if bound < sums[middle] {
        high := middle;
      } else {
        n := middle + 1;
      }
    }
  }

  /** The running sums of escaped lengths, measured one character at a time. */
  method Prefix(text: string) returns (sums: seq<nat>)
    ensures |sums| == |text| + 1
    ensures forall i :: 0 <= i <= |text| ==> sums[i] == Weight(text[..i])
  {
    hide Escape;
    sums := [0];
    for n := 0 to |text|
      invariant |sums| == n + 1
      invariant forall i :: 0 <= i <= n ==> sums[i] == Weight(text[..i])
    {
      EscapeOne(text[n]);
      assert text[..n + 1][..n] == text[..n];
      sums := sums + [sums[n] + |Escape([text[n]])|];
    }
  }

  /** The chunks of a non-empty text are its greedy pieces; the empty text is one empty chunk. */
  method ChunkText(text: string) returns (chunks: seq<string>, ghost cuts: seq<nat>)
    ensures text == [] ==> chunks == [""]
    ensures text != [] ==> Greedy(text, cuts) && chunks == PiecesAt(text, cuts)
  {
    cuts := [0];
    if text == [] {
      return [""], cuts;
    }
    var sums := Prefix(text);
    forall i, j | 0 <= i < j < |sums| ensures sums[i] <= sums[j] {
      WeightGrows(text, i, j);
    }
    chunks := [];
    var start := 0;
    while start < |text|
      invariant start <= |text|
      invariant cuts != [] && cuts[0] == 0 && cuts[|cuts| - 1] == start
      invariant Ascending(cuts, |text|) && chunks == PiecesAt(text, cuts)
      invariant forall i :: 0 <= i < |cuts| - 1 ==> FarthestCut(text, cuts, i)
    {
      var n := BisectRight(sums, sums[start] + ESCAPED_BODY_BUDGET);
      EndIsFarthest(text, sums, start, n);
      var end := if n - 1 < start + 1 then start + 1 else n - 1;
      NextCut(text, cuts, end);
      chunks := chunks + [text[start..end]];
      cuts := cuts + [end];
      start := end;
    }
  }

  lemma NextCut(text: string, cuts: seq<nat>, end: nat)
    requires cuts != [] && Ascending(cuts, |text|) && cuts[|cuts| - 1] < end <= |text|
    requires FarthestEnd(text, cuts[|cuts| - 1], end)
    requires forall i :: 0 <= i < |cuts| - 1 ==> FarthestCut(text, cuts, i)
    ensures Ascending(cuts + [end], |text|)
    ensures PiecesAt(text, cuts + [end]) == PiecesAt(text, cuts) + [text[cuts[|cuts| - 1]..end]]
    ensures forall i :: 0 <= i < |cuts| ==> FarthestCut(text, cuts + [end], i)
  {
    hide FarthestEnd;
    var more := cuts + [end];
    forall i | 0 <= i < |more| - 1 ensures Rises(more, i, |text|) && FarthestCut(text, more, i) {
      if i < |cuts| - 1 {
        assert Rises(cuts, i, |text|) && FarthestCut(text, cuts, i);
      }
    }
  }

  /** The end the search finds lies beyond the start, fits the budget, and cannot be moved on. */
  lemma EndIsFarthest(text: string, sums: seq<nat>, start: nat, n: nat)
    requires |sums| == |text| + 1 && forall i :: 0 <= i <= |text| ==> sums[i] == Weight(text[..i])
    requires start < |text| && n <= |sums|
    requires forall i :: 0 <= i < n ==> sums[i] <= sums[start] + ESCAPED_BODY_BUDGET
    requires forall i :: n <= i < |sums| ==> sums[start] + ESCAPED_BODY_BUDGET < sums[i]
    ensures start + 1 <= n - 1 && FarthestEnd(text, start, n - 1)
  {
    hide Weight;
    WeightBetween(text, start, start + 1);
    assert |text[start..start + 1]| == 1;
    assert sums[start + 1] <= sums[start] + ESCAPED_BODY_BUDGET;
    WeightBetween(text, start, n - 1);
    assert sums[n - 1] <= sums[start] + ESCAPED_BODY_BUDGET;
    if n - 1 < |text| {
      WeightBetween(text, start, n);
      assert sums[n] == Weight(text[..n]);
    }
  }

  // ---- lossless, bounded, optimal ----

  lemma {:induction false} PiecesConcat(text: string, cuts: seq<nat>)
    requires cuts != [] && cuts[0] == 0 && Ascending(cuts, |text|)
    ensures cuts[|cuts| - 1] <= |text| && Concat(PiecesAt(text, cuts)) == text[..cuts[|cuts| - 1]]
  {
    var n := |cuts| - 1;
    if n > 0 {
      var front := cuts[..n];
      assert forall i :: 0 <= i < n - 1 ==> Rises(cuts, i, |text|) && Rises(front, i, |text|);
      assert Rises(cuts, n - 1, |text|);
      PiecesConcat(text, front);
      assert PiecesAt(text, cuts)[..n - 1] == PiecesAt(text, front);
      assert text[..cuts[n - 1]] + text[cuts[n - 1]..cuts[n]] == text[..cuts[n]];
    }
  }

  /** No chunk is lost, no chunk exceeds the budget. */
  lemma ChunksSound(text: string, cuts: seq<nat>)
    requires Greedy(text, cuts)
    ensures Concat(PiecesAt(text, cuts)) == text && Fits(PiecesAt(text, cuts))
  {
    PiecesConcat(text, cuts);
    assert text[..|text|] == text;
    var pieces := PiecesAt(text, cuts);
    forall i | 0 <= i < |pieces| ensures |Escape(pieces[i])| <= ESCAPED_BODY_BUDGET {
      assert FarthestCut(text, cuts, i);
      EscapedLength(pieces[i]);
    }
  }

  /** Each chunk stays within 3500 escaped characters, and one more character of the text would not. */
  lemma CutsAtBudget(text: string, cuts: seq<nat>, i: nat)
    requires Greedy(text, cuts) && i < |cuts| - 1
    ensures cuts[i] < cuts[i + 1] <= |text| && |Escape(text[cuts[i]..cuts[i + 1]])| <= 3500
    ensures cuts[i + 1] < |text| ==> 3500 < |Escape(text[cuts[i]..cuts[i + 1] + 1])|
  {
    hide Escape, Weight, Ascending;
    assert FarthestCut(text, cuts, i);
    EscapedLength(text[cuts[i]..cuts[i + 1]]);
    if cuts[i + 1] < |text| {
      EscapedLength(text[cuts[i]..cuts[i + 1] + 1]);
    }
  }

  lemma {:induction false} ConcatPrefix(pieces: seq<string>, n: nat)
    requires n <= |pieces|
    ensures |Concat(pieces[..n])| <= |Concat(pieces)| && Concat(pieces)[..|Concat(pieces[..n])|] == Concat(pieces[..n])
  {
    if n < |pieces| {
      var front := pieces[..|pieces| - 1];
      assert front[..n] == pieces[..n];
      ConcatPrefix(front, n);
    } else {
      assert pieces[..n] == pieces;
    }
  }

  /** A piece of a fitting split is a stretch of the text within the budget. */
  lemma SplitPiece(text: string, split: seq<string>, n: nat)
    requires Concat(split) == text && Fits(split) && n < |split|
    ensures |Concat(split[..n])| <= |Concat(split[..n + 1])| <= |text|
    ensures Weight(text[|Concat(split[..n])|..|Concat(split[..n + 1])|]) <= ESCAPED_BODY_BUDGET
  {
    hide Weight, Escape;
    ConcatPrefix(split, n);
    ConcatPrefix(split, n + 1);
    assert split[..n + 1][..n] == split[..n];
    EscapedLength(split[n]);
    assert text[|Concat(split[..n])|..|Concat(split[..n + 1])|] == split[n];
  }

  /** After as many pieces, greedy cutting is at least as far as any other fitting split. */
  lemma {:induction false} GreedyStaysAhead(text: string, cuts: seq<nat>, split: seq<string>, n: nat)
    requires Greedy(text, cuts) && Concat(split) == text && Fits(split)
    requires n < |cuts| && n <= |split|
    ensures |Concat(split[..n])| <= cuts[n]
  {
    hide Weight, Escape, FarthestEnd, FarthestCut, Ascending, Fits;
    if n > 0 {
      GreedyStaysAhead(text, cuts, split, n - 1);
      SplitPiece(text, split, n - 1);
      FarthestIsEnd(text, cuts, n - 1);
      NoFurther(text, |Concat(split[..n - 1])|, cuts[n - 1], |Concat(split[..n])|, cuts[n]);
    }
  }

  lemma FarthestIsEnd(text: string, cuts: seq<nat>, i: nat)
    requires i < |cuts| - 1 && FarthestCut(text, cuts, i)
    ensures FarthestEnd(text, cuts[i], cuts[i + 1]) && cuts[i] < cuts[i + 1] <= |text|
  {
  }

  /** A piece within the budget that starts no later than a greedy piece ends no later either. */
  lemma NoFurther(text: string, p: nat, g: nat, q: nat, end: nat)
    requires p <= g && p <= q <= |text| && FarthestEnd(text, g, end) && Weight(text[p..q]) <= ESCAPED_BODY_BUDGET
    ensures q <= end
  {
    hide Weight;
    if end < q {
      WeightBetween(text, p, q);
      WeightGrows(text, p, g);
      WeightGrows(text, end + 1, q);
      WeightBetween(text, g, end + 1);
    }
  }

  /** No fitting split of the text has fewer pieces than the greedy one. */
  lemma GreedyIsOptimal(text: string, cuts: seq<nat>, split: seq<string>)
    requires Greedy(text, cuts)
    requires Concat(split) == text && Fits(split)
    ensures |PiecesAt(text, cuts)| <= |split|
  {
    assert split[..|split|] == split;
    if |split| < |cuts| - 1 {
      assert FarthestCut(text, cuts, |split|) && Rises(cuts, |split|, |text|);
      GreedyStaysAhead(text, cuts, split, |split|);
    }
  }

  /** Some split of the text fits the budget with at most this many pieces. */
  ghost predicate Splittable(text: string, most: nat) {
    exists split: seq<string> :: |split| <= most && Concat(split) == text && Fits(split)
  }

  /** The greedy split exceeds a number of pieces exactly when every fitting split does. */
  lemma TooManyExactly(text: string, cuts: seq<nat>, most: nat)
    requires Greedy(text, cuts)
    ensures |PiecesAt(text, cuts)| > most <==> !Splittable(text, most)
  {
    ChunksSound(text, cuts);
    if split: seq<string> :| |split| <= most && Concat(split) == text && Fits(split) {
      GreedyIsOptimal(text, cuts, split);
    }
    if |PiecesAt(text, cuts)| <= most {
      assert Splittable(text, most);
    }
  }

  // ---- rendering ----

  datatype Payload = Payload(schema: string, sender: string, audience: string, classification: string, text: string)

  datatype Policy = Policy(audiences: set<string>, kinds: set<AudienceKind>, classifications: set<string>)

  predicate Allowed(policy: Policy, payload: Payload, b: Body) {
    && b.audience.name.kind in policy.kinds
    && b.audience.name.id in policy.audiences
    && payload.classification in policy.classifications
    && payload.schema == "tribe-message/v1"
    && payload.sender == b.senderId
    && payload.audience == b.audience.name.id
  }

  const DOT := " \U{00B7} "
  const ARROW := " \U{2192} "

  function Provenance(b: Body): string {
    "Tribe v1" + DOT + b.senderId + ARROW + b.audience.name.id + DOT + b.messageId.text
  }

  function Notice(text: string, b: Body, hash: string): string {
    "<b>" + Escape(Provenance(b)) + "</b>\n" + "Oversized payload omitted from Telegram; use an approved "
    + "artifact channel" + DOT + "characters " + Decimal(|text|) + DOT + "sha256 " + hash
  }

  function Single(b: Body, chunk: string): string {
    "<b>" + Escape(Provenance(b)) + "</b>\n" + Escape(chunk)
  }

  function Part(b: Body, index: nat, total: nat, chunk: string): string {
    "<b>" + Escape(Provenance(b)) + DOT + "part " + Decimal(index) + "/" + Decimal(total) + "</b>\n" + Escape(chunk)
  }

  /** A message is mirrored exactly when its audience and classification are configured and its payload says what its envelope says. */
  lemma AllowedExactly(policy: Policy, payload: Payload, b: Body)
    ensures Allowed(policy, payload, b) <==>
      && b.audience.name.kind in policy.kinds && b.audience.name.id in policy.audiences && payload.classification in policy.classifications
      && payload == Payload("tribe-message/v1", b.senderId, b.audience.name.id, payload.classification, payload.text)
  {
  }

  /** Nothing in it needs escaping. */
  predicate Plain(s: string) {
    forall i :: 0 <= i < |s| ==> s[i] !in "&<>\"'"
  }

  lemma {:induction false} EscapePlain(s: string)
    requires Plain(s)
    ensures Escape(s) == s
  {
    hide Escape;
    if s == [] {
      EscapeNothing();
    } else {
      var n := |s| - 1;
      EscapePlain(s[..n]);
      assert s == s[..n] + [s[n]] && s[n] !in "&<>\"'";
      EscapeConcat(s[..n], [s[n]]);
      EscapeOne(s[n]);
      OnePlain(s[n]);
    }
  }

  lemma OnePlain(c: char)
    requires c !in "&<>\"'"
    ensures EscapeChar(c) == [c]
  {
    var special := "&<>\"'";
    assert special[0] == '&' && special[1] == '<' && special[2] == '>' && special[3] == '"' && special[4] == '\'';
  }

  lemma PlainNames(b: Body)
    requires IsIdentifier(b.senderId) && IsIdentifier(b.audience.name.id) && Plain(b.messageId.text)
    ensures Escape(Provenance(b)) == "Tribe v1 \U{00B7} " + b.senderId + " \U{2192} " + b.audience.name.id + " \U{00B7} " + b.messageId.text
  {
    hide Escape;
    EscapePlain(Provenance(b));
  }

  /** What a reader of the channel sees: the sender, its audience and the message's ID in bold, which part it is, and the escaped text. */
  lemma PartsRead(text: string, chunks: seq<string>, b: Body, hash: string, parts: seq<string>, i: nat)
    requires IsIdentifier(b.senderId) && IsIdentifier(b.audience.name.id) && Plain(b.messageId.text)
    requires RenderedAs(text, chunks, b, hash, parts) && chunks != [] && i < |parts|
    ensures var shown := "Tribe v1 \U{00B7} " + b.senderId + " \U{2192} " + b.audience.name.id + " \U{00B7} " + b.messageId.text;
      parts[i] ==
        if |chunks| == 1 then "<b>" + shown + "</b>\n" + Escape(chunks[0])
        else if |chunks| <= 4 then
          "<b>" + shown + " \U{00B7} " + "part " + Decimal(i + 1) + "/" + Decimal(|chunks|) + "</b>\n" + Escape(chunks[i])
        else
          "<b>" + shown + "</b>\n" + "Oversized payload omitted from Telegram; use an approved "
          + "artifact channel" + " \U{00B7} " + "characters " + Decimal(|text|) + " \U{00B7} " + "sha256 " + hash
  {
    hide Escape, IsIdentifier, Provenance, Decimal;
    PlainNames(b);
  }

  /** What the rendering of a text must be, given its chunks. */
  predicate RenderedAs(text: string, chunks: seq<string>, b: Body, hash: string, parts: seq<string>) {
    if |chunks| > MAX_MIRROR_PARTS then parts == [Notice(text, b, hash)]
    else if |chunks| == 1 then parts == [Single(b, chunks[0])]
    else |parts| == |chunks| && forall i :: 0 <= i < |parts| ==> parts[i] == Part(b, i + 1, |chunks|, chunks[i])
  }

  /**
   * Renders an allowed message: chunk by chunk when some fitting split has at most four pieces, else one notice.
   * hash stands for the SHA-256 of the text in hexadecimal.
   */
  method RenderParts(policy: Policy, payload: Payload, b: Body, hash: string)
    returns (r: Option<seq<string>>, ghost chunks: seq<string>)
    ensures r.Some? <==> Allowed(policy, payload, b)
    ensures r.Some? ==> RenderedAs(payload.text, chunks, b, hash, r.value)
    ensures r.Some? ==> chunks != [] && Concat(chunks) == payload.text && Fits(chunks)
    ensures r.Some? ==> (|chunks| > MAX_MIRROR_PARTS <==> !Splittable(payload.text, MAX_MIRROR_PARTS))
  {
    hide Allowed, Notice, Single, Part, Greedy, Splittable, Concat, Fits, PiecesAt, Ascending;
    chunks := [];
    if !Allowed(policy, payload, b) {
      return None, chunks;
    }
    var pieces, cuts := ChunkText(payload.text);
    chunks := pieces;
    if payload.text == [] {
      EmptyText();
    } else {
      ChunksSound(payload.text, cuts);
      TooManyExactly(payload.text, cuts, MAX_MIRROR_PARTS);
    }
    if |pieces| > MAX_MIRROR_PARTS {
      return Some([Notice(payload.text, b, hash)]), chunks;
    }
    if |pieces| == 1 {
      return Some([Single(b, pieces[0])]), chunks;
    }
    var parts: seq<string> := [];
    for n := 0 to |pieces|
      invariant |parts| == n
      invariant forall i :: 0 <= i < n ==> parts[i] == Part(b, i + 1, |pieces|, pieces[i])
    {
      parts := parts + [Part(b, n + 1, |pieces|, pieces[n])];
    }
    r := Some(parts);
  }

  lemma EmptyText()
    ensures Concat([""]) == "" && Fits([""]) && Splittable("", MAX_MIRROR_PARTS)
  {
    EscapedLength("");
    assert [""][..0] == [];
    assert Concat([""]) == "";
  }

  // ---- every message fits the limit ----

  lemma EscapedIdentifier(s: string)
    requires IsIdentifier(s)
    ensures Weight(s) == |s|
  {
    PlainWeight(s);
  }

  lemma {:induction false} PlainWeight(s: string)
    requires forall i :: 0 <= i < |s| ==> |EscapeChar(s[i])| == 1
    ensures Weight(s) == |s|
  {
    if s != [] {
      PlainWeight(s[..|s| - 1]);
    }
  }

  lemma PlainWords()
    ensures Weight("Tribe v1") == 8 && Weight(DOT) == 3 && Weight(ARROW) == 3
  {
    hide Weight;
    PlainWeight("Tribe v1");
    PlainWeight(DOT);
    PlainWeight(ARROW);
  }

  lemma ProvenanceLength(b: Body)
    requires IsIdentifier(b.senderId) && IsIdentifier(b.audience.name.id)
    ensures |Escape(Provenance(b))| == 17 + |b.senderId| + |b.audience.name.id| + Weight(b.messageId.text)
  {
    hide Escape, Weight, IsIdentifier;
    EscapedLength(Provenance(b));
    EscapedIdentifier(b.senderId);
    EscapedIdentifier(b.audience.name.id);
    PlainWords();
    WeightConcat("Tribe v1", DOT);
    WeightConcat("Tribe v1" + DOT, b.senderId);
    WeightConcat("Tribe v1" + DOT + b.senderId, ARROW);
    WeightConcat("Tribe v1" + DOT + b.senderId + ARROW, b.audience.name.id);
    WeightConcat("Tribe v1" + DOT + b.senderId + ARROW + b.audience.name.id, DOT);
    WeightConcat("Tribe v1" + DOT + b.senderId + ARROW + b.audience.name.id + DOT, b.messageId.text);
  }

  lemma {:induction false} DecimalLength(n: nat, digits: nat, bound: nat)
    requires n < bound && bound == Power10(digits) && digits >= 1
    ensures |Decimal(n)| <= digits
  {
    if n >= 10 {
      DecimalLength(n / 10, digits - 1, Power10(digits - 1));
    }
  }

  function Power10(n: nat): nat {
    if n == 0 then 1 else 10 * Power10(n - 1)
  }

  /** With identifiers and a 36-character message ID every rendered message stays below Telegram's limit. */
  lemma RenderedFits(text: string, chunks: seq<string>, b: Body, hash: string, parts: seq<string>)
    requires RenderedAs(text, chunks, b, hash, parts) && chunks != [] && Fits(chunks)
    requires IsIdentifier(b.senderId) && IsIdentifier(b.audience.name.id) && |b.messageId.text| <= 36
    requires |hash| == 64 && |text| <= MAX_PLAINTEXT
    ensures forall i :: 0 <= i < |parts| ==> |parts[i]| < TELEGRAM_MESSAGE_LIMIT
  {
    ProvenanceLength(b);
    assert |Escape(Provenance(b))| <= 17 + 128 + 128 + 216;
    assert Power10(6) == 1_000_000;
    DecimalLength(|text|, 6, 1_000_000);
    forall i | 0 <= i < |parts| ensures |parts[i]| < TELEGRAM_MESSAGE_LIMIT {
      if 1 < |chunks| <= MAX_MIRROR_PARTS {
        assert |Decimal(i + 1)| == 1 && |Decimal(|chunks|)| == 1;
        assert |Escape(chunks[i])| <= ESCAPED_BODY_BUDGET;
      } else if |chunks| == 1 {
        assert |Escape(chunks[0])| <= ESCAPED_BODY_BUDGET;
      }
    }
  }
}
