/**
 * The phrasing tab (`PhraseTab.generate`): a fixed prompt built from the chosen
 * relation, request and situation; and the extraction of a JSON candidate from the
 * model's free-text reply, which is then handed to `JSON.parse`. The parser is a
 * parameter: whatever it accepts is stored as the result, and a rejection (or a
 * failed gateway call) stores the error marker.
 */
module Phrase {
  import opened Optional
  import opened JsString
  import opened Gateway

  const PhraseSystem: string := @"あなたは日本の大学生の人間関係と敬語に精通した、非常に優秀なコミュニケーション講師です。
以下のルールを「鉄の掟」として守り、自然で完璧な日本語のみを生成してください。

【厳守すべき日本語ルール】
1. 違和感のある日本語（例：「提供いただかせてください」「借りていいか？」等）は絶対に出力しない。
2. 相手が「教授・先生」の場合：
   - 丁寧：非常にフォーマル。クッション言葉（お忙しいところ恐縮ですが等）を使い、「〜いただけますでしょうか」「〜幸いです」で締める。
   - 普通：丁寧な敬語（ですます調）。「〜お願いしたく連絡いたしました」等。
   - カジュアル：教授にカジュアルは存在しません。少し柔らかい丁寧語にするか、ゼミの先生なら「〜お願いしてもよろしいでしょうか？」程度に留める。「〜いい？」は絶対に禁止。
3. 相手が「友人」の場合：
   - カジュアル：大学生が実際にLINEで使うような自然なタメ口（「〜持ってたりする？」「〜お願いしたいんだけど！」等）。

【出力形式】
必ず以下のJSON形式のみを返してください。
{""polite"":""教授への最も失礼のない表現"",""normal"":""標準的な敬語表現"",""casual"":""相手に合わせた自然な口語"",""tips"":""日本的なマナーのアドバイス""}"

  const RelationTypes: seq<string> := ["教授・先生", "先輩", "同期・友人", "後輩", "バイト先の上司", "グループメンバー"]

  const RequestTypes: seq<string> := ["過去問をもらう", "締め切りを延ばしてもらう", "質問する", "資料を貸してもらう", "一緒に勉強する", "欠席を伝える", "その他"]

  /** Stands in for an empty situation. */
  const Placeholder: string := "特になし"

  const RelationHead: string := "相手: "
  const RequestHead: string := "\n頼み事: "
  const SituationHead: string := "\n状況: "
  const PromptTail: string := "\n上記に合わせて、自然な日本語のフレーズを作ってください。"

  /** The user prompt; an empty situation is replaced by the placeholder. */
  function Prompt(relation: string, request: string, situation: string): string {
    RelationHead + relation + RequestHead + request + SituationHead
    + (if situation == "" then Placeholder else situation) + PromptTail
  }

  datatype PromptFields = PromptFields(relation: string, request: string, situation: string)

  /** After `head`, the text up to the next line break, and what follows from that line break on. */
  function ReadLine(p: string, head: string): Option<(string, string)> {
    if !StartsWith(p, head) then None
    else
      var rest := p[|head|..];
      match IndexOf(rest, '\n')
      case None => None
      case Some(k) => Some((rest[..k], rest[k..]))
  }

  lemma ReadLineOf(head: string, field: string, rest: string)
    requires '\n' !in field && |rest| > 0 && rest[0] == '\n'
    ensures ReadLine(head + field + rest, head) == Some((field, rest))
  {
    var p := head + field + rest;
    assert p[..|head|] == head;
    assert p[|head|..] == field + rest;
    IndexOfAfter(field, rest, '\n');
    assert (field + rest)[..|field|] == field;
    assert (field + rest)[|field|..] == rest;
  }

  /** Reads the three fields back out of a prompt: relation and request each run to the next line break. */
  function ParsePrompt(p: string): Option<PromptFields> {
    match ReadLine(p, RelationHead)
    case None => None
    case Some((relation, rest)) =>
      match ReadLine(rest, RequestHead)
      case None => None
      case Some((request, rest')) =>
        if !StartsWith(rest', SituationHead) then None
        else
          var tail := rest'[|SituationHead|..];
          if !EndsWith(tail, PromptTail) then None
          else Some(PromptFields(relation, request, tail[..|tail| - |PromptTail|]))
  }

  /**
   * The prompt loses nothing but the difference between an empty situation and the
   * placeholder: relation, request and situation are all recoverable from it.
   */
  lemma {:induction false} PromptRoundTrip(relation: string, request: string, situation: string)
    requires '\n' !in relation && '\n' !in request
    ensures ParsePrompt(Prompt(relation, request, situation))
         == Some(PromptFields(relation, request, if situation == "" then Placeholder else situation))
  {
    var sit := if situation == "" then Placeholder else situation;
    var tail := sit + PromptTail;
    var rest' := SituationHead + tail;
    var rest := RequestHead + request + rest';
    PromptRegroup(RelationHead, relation, RequestHead, request, SituationHead, sit, PromptTail);
    ReadLineOf(RelationHead, relation, rest);
    ReadLineOf(RequestHead, request, rest');
    AfterHead(SituationHead, tail);
    BeforeTail(sit, PromptTail);
  }

  lemma PromptRegroup(a: string, b: string, c: string, d: string, e: string, f: string, g: string)
    ensures a + b + c + d + e + f + g == a + b + (c + d + (e + (f + g)))
  {
  }

  lemma AfterHead(head: string, t: string)
    ensures StartsWith(head + t, head) && (head + t)[|head|..] == t
  {
    assert (head + t)[..|head|] == head;
  }

  lemma BeforeTail(x: string, tail: string)
    ensures EndsWith(x + tail, tail) && (x + tail)[..|x + tail| - |tail|] == x
  {
    assert (x + tail)[|x + tail| - |tail|..] == tail;
  }

  /** The menus offer no choice containing a line break, so every prompt the tab builds round-trips. */
  lemma MenuPromptRoundTrip(i: nat, j: nat, situation: string)
    requires i < |RelationTypes| && j < |RequestTypes|
    ensures ParsePrompt(Prompt(RelationTypes[i], RequestTypes[j], situation))
         == Some(PromptFields(RelationTypes[i], RequestTypes[j], if situation == "" then Placeholder else situation))
  {
    assert forall r <- RelationTypes :: '\n' !in r;
    assert forall r <- RequestTypes :: '\n' !in r;
    PromptRoundTrip(RelationTypes[i], RequestTypes[j], situation);
  }

  /** `s[i..j]` is a match of /\{[\s\S]*\}/: it opens with `{`, closes with `}`, anything between. */
  ghost predicate MatchAt(s: string, i: int, j: int) {
    0 <= i && i + 2 <= j <= |s| && s[i] == '{' && s[j - 1] == '}'
  }

  ghost predicate NoMatch(s: string) {
    forall i, j :: !MatchAt(s, i, j)
  }

  /** The span from the first `{` through the last `}`, when that `}` comes after that `{`. */
  function BraceSpan(s: string): (r: Option<(nat, nat)>)
    ensures r.Some? ==> MatchAt(s, r.value.0, r.value.1)
  {
    match (IndexOf(s, '{'), LastIndexOf(s, '}'))
    case (Some(i), Some(l)) => if i < l then Some((i, l + 1)) else None
    case _ => None
  }

  /**
   * BraceSpan is what `s.match(/\{[\s\S]*\}/)` finds: there is a match exactly when it
   * is Some, and then it is the leftmost match and, among those starting there, the
   * longest (the greedy one).
   */
  lemma BraceSpanIsRegexMatch(s: string)
    ensures BraceSpan(s).None? <==> NoMatch(s)
    ensures BraceSpan(s).Some? ==>
              forall i, j :: MatchAt(s, i, j) ==>
                BraceSpan(s).value.0 <= i && (i == BraceSpan(s).value.0 ==> j <= BraceSpan(s).value.1)
  {
  }

  const FenceJson: string := "```json"
  const Fence: string := "```"

  /** Three backticks start at position `i`. */
  predicate FenceAt(s: string, i: int) {
    0 <= i && i + 3 <= |s| && s[i] == '`' && s[i + 1] == '`' && s[i + 2] == '`'
  }

  /** "```json" starts `s`. */
  predicate JsonFenceAt(s: string) {
    FenceAt(s, 0) && 7 <= |s| && s[3] == 'j' && s[4] == 's' && s[5] == 'o' && s[6] == 'n'
  }

  ghost predicate NoFence(s: string) {
    forall i :: !FenceAt(s, i)
  }

  /**
   * `s.replace(/```json|```/g, "")`: one left-to-right pass that deletes each
   * occurrence, trying "```json" before "```" at every position.
   */
  function StripFences(s: string): (r: string)
    ensures |r| <= |s|
    ensures forall k :: 0 <= k < |r| ==> r[k] in s
    ensures |s| > 0 && !FenceAt(s, 0) ==> |r| > 0 && r[0] == s[0]
    decreases |s|
  {
    if |s| == 0 then s
    else if JsonFenceAt(s) then
      var r := StripFences(s[7..]);
      assert forall k :: 0 <= k < |r| ==> r[k] in s by {
        forall k | 0 <= k < |r| ensures r[k] in s {
          var m :| 0 <= m < |s[7..]| && s[7..][m] == r[k];
          assert s[m + 7] == r[k];
        }
      }
      r
    else if FenceAt(s, 0) then
      var r := StripFences(s[3..]);
      assert forall k :: 0 <= k < |r| ==> r[k] in s by {
        forall k | 0 <= k < |r| ensures r[k] in s {
          var m :| 0 <= m < |s[3..]| && s[3..][m] == r[k];
          assert s[m + 3] == r[k];
        }
      }
      r
    else
      var r := StripFences(s[1..]);
      assert forall k :: 0 <= k < |r| ==> r[k] in s by {
        forall k | 0 <= k < |r| ensures r[k] in s {
          var m :| 0 <= m < |s[1..]| && s[1..][m] == r[k];
          assert s[m + 1] == r[k];
        }
      }
      [s[0]] + r
  }

  /** The character tests the pass uses are exactly the prefix tests for the two markers. */
  lemma StartsWithFence(s: string)
    ensures StartsWith(s, Fence) <==> FenceAt(s, 0)
    ensures StartsWith(s, FenceJson) <==> JsonFenceAt(s)
  {
    if JsonFenceAt(s) {
      assert s[..7] == FenceJson;
    }
  }

  /** No run of three backticks survives the pass, not even one formed by the deletions. */
  lemma {:induction false} NoFenceSurvives(s: string)
    ensures NoFence(StripFences(s))
    decreases |s|
  {
    if |s| == 0 {
    } else if JsonFenceAt(s) {
      NoFenceSurvives(s[7..]);
    } else if FenceAt(s, 0) {
      NoFenceSurvives(s[3..]);
    } else {
      var t := s[1..];
      var rest := StripFences(t);
      var r := StripFences(s);
      assert r == [s[0]] + rest;
      NoFenceSurvives(t);
      var u := if |t| > 0 then t[1..] else t;
      assert |t| > 0 && !FenceAt(t, 0) ==> rest == [t[0]] + StripFences(u);
      forall i ensures !FenceAt(r, i) {
        assert i > 0 && FenceAt(r, i) ==> FenceAt(rest, i - 1);
      }
    }
  }

  /** Text without "```" passes through unchanged. */
  lemma {:induction false} StripFencesOfClean(s: string)
    requires NoFence(s)
    ensures StripFences(s) == s
    decreases |s|
  {
    if |s| > 0 {
      assert forall i :: FenceAt(s[1..], i) ==> FenceAt(s, i + 1);
      StripFencesOfClean(s[1..]);
    }
  }

  /** A marker at the very start is deleted ("```" only when no "json" follows it). */
  lemma StripFencesDeletesLeadingMarker(m: string, y: string)
    requires m == FenceJson || (m == Fence && !StartsWith(y, "json"))
    ensures StripFences(m + y) == StripFences(y)
  {
    var s := m + y;
    if m == FenceJson {
      assert JsonFenceAt(s) && s[7..] == y;
    } else {
      assert FenceAt(s, 0) && s[3..] == y;
      assert |y| >= 4 ==> (y[..4] == "json" <==> y[0] == 'j' && y[1] == 's' && y[2] == 'o' && y[3] == 'n');
    }
  }

  /** Where no fence starts, the pass keeps the first character. */
  lemma StripFencesKeepsHead(s: string)
    requires |s| > 0 && !FenceAt(s, 0)
    ensures StripFences(s) == [s[0]] + StripFences(s[1..])
  {
  }

  /** Fence-free text that does not end in a backtick starts no fence, whatever follows it. */
  lemma NoFenceAtJoin(x: string, t: string)
    requires NoFence(x) && |x| > 0 && x[|x| - 1] != '`'
    ensures !FenceAt(x + t, 0)
  {
    var s := x + t;
    assert s[0] == x[0];
    assert |x| >= 2 ==> s[1] == x[1];
    assert |x| >= 3 ==> s[2] == x[2] && !FenceAt(x, 0);
  }

  lemma NoFenceTail(x: string)
    requires NoFence(x) && |x| > 0
    ensures NoFence(x[1..])
  {
    assert forall i :: FenceAt(x[1..], i) ==> FenceAt(x, i + 1);
  }

  lemma AppendAssoc(a: string, b: string, c: string)
    ensures a + b + c == a + (b + c)
  {
  }

  lemma ConsRegroup(x: string, u: string)
    requires |x| > 0
    ensures [x[0]] + (x[1..] + u) == x + u
  {
    assert [x[0]] + (x[1..] + u) == ([x[0]] + x[1..]) + u;
    assert [x[0]] + x[1..] == x;
  }

  /** Before fence-free text not ending in a backtick, the pass keeps the first character. */
  lemma StripFencesCleanHead(x: string, t: string)
    requires NoFence(x) && |x| > 0 && x[|x| - 1] != '`'
    ensures StripFences(x + t) == [x[0]] + StripFences(x[1..] + t)
  {
    NoFenceAtJoin(x, t);
    StripFencesKeepsHead(x + t);
    assert (x + t)[1..] == x[1..] + t;
  }

  /**
   * Fence-free text not ending in a backtick passes through the pass unchanged,
   * whatever follows it: no fence can start inside it.
   */
  lemma {:induction false} StripFencesKeepsCleanPrefix(x: string, t: string)
    requires NoFence(x) && (x == [] || x[|x| - 1] != '`')
    ensures StripFences(x + t) == x + StripFences(t)
    decreases |x|
  {
    if x == [] {
      assert x + t == t;
    } else {
      var u := StripFences(t);
      StripFencesCleanHead(x, t);
      NoFenceTail(x);
      StripFencesKeepsCleanPrefix(x[1..], t);
      ConsRegroup(x, u);
    }
  }

  /**
   * What the pass deletes: a marker ("```json", or "```" when no "json" follows it)
   * that comes after fence-free text not ending in a backtick is removed, and the
   * text before it is kept as it is.
   */
  lemma StripFencesDeletesMarker(x: string, m: string, y: string)
    requires NoFence(x) && (x == [] || x[|x| - 1] != '`')
    requires m == FenceJson || (m == Fence && !StartsWith(y, "json"))
    ensures StripFences(x + m + y) == x + StripFences(y)
  {
    AppendAssoc(x, m, y);
    StripFencesKeepsCleanPrefix(x, m + y);
    StripFencesDeletesLeadingMarker(m, y);
  }

  /** A closing "```" after fence-free text is deleted, even when that text ends in backticks. */
  lemma {:induction false} StripFencesDropsClosingFence(x: string)
    requires NoFence(x)
    ensures StripFences(x + Fence) == x
    decreases |x|
  {
    var s := x + Fence;
    if x == [] {
      assert s[3..] == [];
    } else if FenceAt(s, 0) {
      // Only one or two backticks can precede the closing fence here.
      assert |x| >= 3 ==> FenceAt(x, 0);
      assert !JsonFenceAt(s);
      assert s[3..] == x by {
        forall k | 0 <= k < |x| ensures s[3..][k] == x[k] {
          assert s[3 + k] == '`' && x[k] == '`';
        }
      }
      StripFencesOfClean(x);
    } else {
      var x' := x[1..];
      assert forall i :: FenceAt(x', i) ==> FenceAt(x, i + 1);
      assert s[1..] == x' + Fence;
      StripFencesDropsClosingFence(x');
      assert x == [x[0]] + x';
    }
  }

  /** Deleting characters never creates a `{ ... }` match: the order of the survivors is kept. */
  lemma {:induction false} StripFencesKeepsNoMatch(s: string)
    requires NoMatch(s)
    ensures NoMatch(StripFences(s))
    decreases |s|
  {
    if |s| > 0 {
      var n := if JsonFenceAt(s) then 7 else if FenceAt(s, 0) then 3 else 1;
      var t := s[n..];
      SliceKeepsNoMatch(s, n, |s|);
      assert t == s[n..|s|];
      StripFencesKeepsNoMatch(t);
      if n == 1 {
        var r := StripFences(s);
        var rest := StripFences(t);
        assert r == [s[0]] + rest;
        forall i, j ensures !MatchAt(r, i, j) {
          if MatchAt(r, i, j) {
            if i > 0 {
              assert MatchAt(rest, i - 1, j - 1);
            } else {
              assert rest[j - 2] in t;
              var m :| 0 <= m < |t| && t[m] == rest[j - 2];
              assert MatchAt(s, 0, m + 2);
            }
          }
        }
      }
    }
  }

  /** A slice of a string without fences has none. */
  lemma SliceKeepsNoFence(s: string, a: nat, b: nat)
    requires a <= b <= |s| && NoFence(s)
    ensures NoFence(s[a..b])
  {
    assert forall i :: FenceAt(s[a..b], i) ==> FenceAt(s, a + i);
  }

  /** A slice of a string without a brace match has none. */
  lemma PieceKeepsNoFence(s: string, a: nat, r: string)
    requires a + |r| <= |s| && r == s[a..a + |r|] && NoFence(s)
    ensures NoFence(r)
  {
    SliceKeepsNoFence(s, a, a + |r|);
  }

  lemma PieceKeepsNoMatch(s: string, a: nat, r: string)
    requires a + |r| <= |s| && r == s[a..a + |r|] && NoMatch(s)
    ensures NoMatch(r)
  {
    SliceKeepsNoMatch(s, a, a + |r|);
  }

  lemma SliceKeepsNoMatch(s: string, a: nat, b: nat)
    requires a <= b <= |s| && NoMatch(s)
    ensures NoMatch(s[a..b])
  {
    forall i, j | MatchAt(s[a..b], i, j) ensures MatchAt(s, a + i, a + j) {
    }
  }

  /** Trimming takes a slice, so it creates no fence. */
  lemma TrimKeepsNoFence(s: string)
    requires NoFence(s)
    ensures NoFence(Trim(s))
  {
    PieceKeepsNoFence(s, Lead(s), Trim(s));
  }

  /** Trimming takes a slice, so it creates no brace match. */
  lemma TrimKeepsNoMatch(s: string)
    requires NoMatch(s)
    ensures NoMatch(Trim(s))
  {
    PieceKeepsNoMatch(s, Lead(s), Trim(s));
  }

  /** The fallback candidate of text without a brace match carries no fence and no brace match. */
  lemma FallbackIsClean(s: string)
    requires NoMatch(s)
    ensures NoFence(Trim(StripFences(s))) && NoMatch(Trim(StripFences(s)))
  {
    NoFenceSurvives(s);
    StripFencesKeepsNoMatch(s);
    TrimKeepsNoFence(StripFences(s));
    TrimKeepsNoMatch(StripFences(s));
  }

  /**
   * The text handed to `JSON.parse`: the brace span when there is one, otherwise the
   * reply with its code-fence markers removed and trimmed.
   */
  function Candidate(s: string): (r: string)
    ensures |r| <= |s|
    ensures BraceSpan(s).Some? ==>
              && r == s[BraceSpan(s).value.0..BraceSpan(s).value.1]
              && |r| >= 2 && r[0] == '{' && r[|r| - 1] == '}'
    ensures BraceSpan(s).None? ==> r == Trim(StripFences(s))
    ensures BraceSpan(s).None? ==> NoFence(r) && Trimmed(r) && NoMatch(r)
  {
    match BraceSpan(s)
    case Some((i, j)) => s[i..j]
    case None =>
      BraceSpanIsRegexMatch(s);
      FallbackIsClean(s);
      Trim(StripFences(s))
  }

  /** Extraction is idempotent: the candidate of a candidate is itself. */
  lemma CandidateIdempotent(s: string)
    ensures Candidate(Candidate(s)) == Candidate(s)
  {
    var r := Candidate(s);
    if BraceSpan(s).Some? {
      assert IndexOf(r, '{') == Some(0);
      assert LastIndexOf(r, '}') == Some(|r| - 1);
      assert r[0..|r|] == r;
    } else {
      BraceSpanIsRegexMatch(r);
      StripFencesOfClean(r);
      TrimOfTrimmed(r);
    }
  }

  /**
   * A JSON object surrounded by prose that opens no brace before it and closes none
   * after it (a code fence, say) is extracted exactly.
   */
  lemma CandidateFindsPayload(prefix: string, payload: string, suffix: string)
    requires '{' !in prefix && '}' !in suffix
    requires |payload| >= 2 && payload[0] == '{' && payload[|payload| - 1] == '}'
    ensures Candidate(prefix + payload + suffix) == payload
  {
    var s := prefix + payload + suffix;
    assert s == prefix + (payload + suffix);
    IndexOfAfter(prefix, payload + suffix, '{');
    assert s == (prefix + payload) + suffix;
    LastIndexOfBefore(prefix + payload, suffix, '}');
    assert s[|prefix|..|prefix| + |payload|] == payload;
  }

  /**
   * A reply that is only a fenced block ("```json", text, "```") with no braces
   * inside yields the block's text, trimmed: both markers are deleted.
   */
  /** The markers hold no braces, so fencing text without a brace match creates none. */
  lemma FencedKeepsNoMatch(y: string)
    requires NoMatch(y)
    ensures NoMatch(FenceJson + y + Fence)
  {
    var s := FenceJson + y + Fence;
    forall i, j | MatchAt(s, i, j) ensures MatchAt(y, i - 7, j - 7) {
      assert 7 <= i && j - 1 < 7 + |y| by {
        assert s[i] == '{' && s[j - 1] == '}';
      }
      assert s[i] == y[i - 7] && s[j - 1] == y[j - 8];
    }
  }

  lemma CandidateOfFencedText(y: string)
    requires NoFence(y) && NoMatch(y)
    ensures Candidate(FenceJson + y + Fence) == Trim(y)
  {
    var s := FenceJson + y + Fence;
    FencedKeepsNoMatch(y);
    BraceSpanIsRegexMatch(s);
    AppendAssoc(FenceJson, y, Fence);
    StripFencesDeletesLeadingMarker(FenceJson, y + Fence);
    StripFencesDropsClosingFence(y);
  }

  /** The outcome of one generation: the parser's value, or the `{error: true}` marker. */
  datatype PhraseResult<V> = Parsed(value: V) | ErrorMarker

  /** From the settled gateway call to the stored result, with `parse` standing for `JSON.parse`. */
  function Interpret<V>(o: Outcome, parse: string -> Option<V>): (r: PhraseResult<V>)
    ensures r.Parsed? <==> o.Delivered? && parse(Candidate(Reply(o.body))).Some?
    ensures r.Parsed? ==> parse(Candidate(Reply(o.body))) == Some(r.value)
  {
    match Ask(o)
    case None => ErrorMarker
    case Some(text) =>
      match parse(Candidate(text))
      case Some(v) => Parsed(v)
      case None => ErrorMarker
  }

  /** A reply carrying the object inside a code fence or other brace-free prose yields the parsed object. */
  lemma InterpretFencedReply<V>(prefix: string, payload: string, suffix: string, parse: string -> Option<V>, v: V)
    requires '{' !in prefix && '}' !in suffix
    requires |payload| >= 2 && payload[0] == '{' && payload[|payload| - 1] == '}'
    requires parse(payload) == Some(v)
    ensures Interpret(Delivered(Wrap(prefix + payload + suffix)), parse) == Parsed(v)
  {
    ReplyOfWrap(prefix + payload + suffix);
    CandidateFindsPayload(prefix, payload, suffix);
  }

  /** The tab's state: the three inputs, the last result (None while cleared) and the busy flag. */
  datatype PhraseState<V> = PhraseState(relation: string, request: string, situation: string,
                                        result: Option<PhraseResult<V>>, loading: bool)

  /** The tab opens on the first relation and the first request, with an empty situation. */
  function InitialPhrase<V>(): PhraseState<V> {
    PhraseState(RelationTypes[0], RequestTypes[0], "", None, false)
  }

  /**
   * The opening selections are menu entries, so the prompt generated from the opening
   * state reads back as those selections with the placeholder for the empty situation.
   */
  lemma InitialPromptRoundTrip<V>()
    ensures var st := InitialPhrase<V>();
            && st.result.None? && !st.loading
            && ParsePrompt(Prompt(st.relation, st.request, st.situation))
               == Some(PromptFields(RelationTypes[0], RequestTypes[0], Placeholder))
  {
    MenuPromptRoundTrip(0, 0, "");
  }

  datatype Started<V> = Started(state: PhraseState<V>, request: seq<Turn>)

  /** The synchronous half of `generate`: clear the result, raise `loading`, and build the gateway request. */
  function StartGenerate<V>(st: PhraseState<V>): (r: Started<V>)
    ensures r.state == st.(result := None, loading := true)
    ensures |r.request| == 2 && r.request[0] == Turn(System, PhraseSystem) && r.request[1].role == User
    ensures '\n' !in st.relation && '\n' !in st.request ==>
              ParsePrompt(r.request[1].content)
              == Some(PromptFields(st.relation, st.request, if st.situation == "" then Placeholder else st.situation))
  {
    var request := BuildMessages([Turn(User, Prompt(st.relation, st.request, st.situation))], PhraseSystem);
    assert request[1].role == User && ('\n' !in st.relation && '\n' !in st.request ==>
             ParsePrompt(request[1].content)
             == Some(PromptFields(st.relation, st.request, if st.situation == "" then Placeholder else st.situation))) by {
      PhraseSystemNonEmpty();
      PromptRequest(st.relation, st.request, st.situation, PhraseSystem);
    }
    Started(st.(result := None, loading := true), request)
  }

  lemma PhraseSystemNonEmpty()
    ensures PhraseSystem != ""
  {
  }

  /** The request `generate` posts, for any non-empty instruction, carries a prompt that parses back. */
  lemma PromptRequest(relation: string, request: string, situation: string, system: string)
    requires system != ""
    ensures var m := BuildMessages([Turn(User, Prompt(relation, request, situation))], system);
            && |m| == 2 && m[0] == Turn(System, system) && m[1].role == User
            && ('\n' !in relation && '\n' !in request ==>
                  ParsePrompt(m[1].content)
                  == Some(PromptFields(relation, request, if situation == "" then Placeholder else situation)))
  {
    var m := BuildMessages([Turn(User, Prompt(relation, request, situation))], system);
    assert m[1] == Turn(User, Prompt(relation, request, situation));
    if '\n' !in relation && '\n' !in request {
      PromptRoundTrip(relation, request, situation);
    }
  }

  /** The continuation of `generate`: store the interpreted result and lower `loading`; the inputs are kept. */
  function FinishGenerate<V>(st: PhraseState<V>, o: Outcome, parse: string -> Option<V>): (r: PhraseState<V>)
    ensures r.relation == st.relation && r.request == st.request && r.situation == st.situation
    ensures !r.loading && r.result.Some?
    ensures r.result.value.ErrorMarker? <==> o.Failed? || parse(Candidate(Reply(o.body))).None?
    ensures r.result.value.Parsed? ==> parse(Candidate(Reply(o.body))) == Some(r.result.value.value)
  {
    st.(result := Some(Interpret(o, parse)), loading := false)
  }
}
