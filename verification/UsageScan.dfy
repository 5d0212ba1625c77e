/** Finding the last `"usage":{...}` object of a response, and why looking at the body's tail is enough. */
module UsageScan {
  import opened Common

  const KEY := "\"usage\""

  predicate OccursAt(text: string, p: nat) {
    p + |KEY| <= |text| && text[p..p + |KEY|] == KEY
  }

  /** The last position at or before `p` where the key occurs. */
  function LastUpTo(text: string, p: nat): Option<nat> {
    if OccursAt(text, p) then Some(p) else if p == 0 then None else LastUpTo(text, p - 1)
  }

  function LastOccurrence(text: string): Option<nat> {
    LastUpTo(text, |text|)
  }

  /** Where the first opening brace is; the length if there is none. */
  function FirstBrace(text: string, from: nat): nat
    requires from <= |text|
    decreases |text| - from
  {
    if from == |text| || text[from] == '{' then from else FirstBrace(text, from + 1)
  }

  /** Scanning on from `i` at a depth: the position behind the brace that brings the depth back to zero. */
  function CloseFrom(text: string, i: nat, depth: int): Option<nat>
    requires i <= |text|
    decreases |text| - i
  {
    if i == |text| then None
    else if text[i] == '{' then CloseFrom(text, i + 1, depth + 1)
    else if text[i] == '}' then (if depth == 1 then Some(i + 1) else CloseFrom(text, i + 1, depth - 1))
    else CloseFrom(text, i + 1, depth)
  }

  lemma {:induction false} FirstBraceBound(text: string, from: nat)
    requires from <= |text|
    ensures from <= FirstBrace(text, from) <= |text|
    ensures '{' !in text[from..FirstBrace(text, from)]
    ensures FirstBrace(text, from) < |text| ==> text[FirstBrace(text, from)] == '{'
    decreases |text| - from
  {
    if from < |text| && text[from] != '{' {
      FirstBraceBound(text, from + 1);
      var p := FirstBrace(text, from + 1);
      assert text[from..p] == [text[from]] + text[from + 1..p];
    }
  }

  lemma {:induction false} CloseBound(text: string, i: nat, depth: int)
    requires i <= |text|
    ensures CloseFrom(text, i, depth).Some? ==> i < CloseFrom(text, i, depth).value <= |text|
    decreases |text| - i
  {
    if i < |text| {
      CloseBound(text, i + 1, depth + 1);
      CloseBound(text, i + 1, depth - 1);
      CloseBound(text, i + 1, depth);
    }
  }

  /** The object a text opens with, behind whatever precedes its first brace. */
  function FirstObject(text: string): Option<string> {
    FirstBraceBound(text, 0);
    var rest := text[FirstBrace(text, 0)..];
    CloseBound(rest, 0, 0);
    match CloseFrom(rest, 0, 0)
    case Some(end) => Some(rest[..end])
    case None => None
  }

  /** The usage object of a text: the first object after the last key. */
  function UsageObject(text: string): Option<string> {
    LastUpToIsLast(text, |text|);
    match LastOccurrence(text)
    case Some(p) => FirstObject(text[p + |KEY|..])
    case None => None
  }

  // ----- what is found -----

  lemma {:induction false} LastUpToIsLast(text: string, p: nat)
    ensures LastUpTo(text, p).Some? ==>
              LastUpTo(text, p).value <= p && OccursAt(text, LastUpTo(text, p).value)
    ensures forall q :: 0 <= q <= p && OccursAt(text, q) ==> LastUpTo(text, p).Some? && q <= LastUpTo(text, p).value
  {
    if !OccursAt(text, p) && p > 0 {
      LastUpToIsLast(text, p - 1);
    }
  }

  /** Opening minus closing braces. */
  function Depth(text: string): int {
    if text == [] then 0
    else
      var last := text[|text| - 1];
      Depth(text[..|text| - 1]) + if last == '{' then 1 else if last == '}' then -1 else 0
  }

  /** `text[..end]` is balanced and no shorter prefix is: its opening brace closes exactly at its end. */
  ghost predicate ClosesAt(text: string, end: nat) {
    && 0 < end <= |text| && text[end - 1] == '}'
    && Depth(text[..end]) == 0
    && (forall k :: 0 < k < end ==> Depth(text[..k]) > 0)
  }

  lemma {:induction false} CloseFromCloses(text: string, i: nat, depth: int)
    requires text != [] && text[0] == '{' && i <= |text| && depth == Depth(text[..i])
    requires forall k :: 0 < k <= i ==> Depth(text[..k]) > 0
    ensures match CloseFrom(text, i, depth)
            case Some(end) => ClosesAt(text, end)
            case None => forall k :: 0 < k <= |text| ==> Depth(text[..k]) > 0
    decreases |text| - i
  {
    if i < |text| {
      assert text[..i + 1][..i] == text[..i];
      assert i == 0 ==> text[..i] == [];
      if !(text[i] == '}' && depth == 1) {
        CloseFromCloses(text, i + 1, Depth(text[..i + 1]));
      }
    }
  }

  ghost predicate IsLastKey(text: string, p: nat) {
    OccursAt(text, p) && forall q :: p < q <= |text| ==> !OccursAt(text, q)
  }

  ghost predicate NoKey(text: string) {
    forall q :: 0 <= q <= |text| ==> !OccursAt(text, q)
  }

  predicate IsFirstBrace(text: string, from: nat, b: nat) {
    from <= b < |text| && text[b] == '{' && '{' !in text[from..b]
  }

  predicate NoBrace(text: string, from: nat) {
    from <= |text| && '{' !in text[from..]
  }

  ghost predicate NeverCloses(text: string) {
    forall k :: 0 < k <= |text| ==> Depth(text[..k]) > 0
  }

  /** The object behind position `from`: the shortest balanced text at the first brace. */
  lemma FirstObjectMeaning(text: string, from: nat)
    requires from <= |text|
    ensures match FirstObject(text[from..])
            case Some(obj) =>
              exists b: nat :: IsFirstBrace(text, from, b) && obj <= text[b..] && ClosesAt(text[b..], |obj|)
            case None =>
              NoBrace(text, from) || exists b: nat :: IsFirstBrace(text, from, b) && NeverCloses(text[b..])
  {
    var after := text[from..];
    FirstBraceBound(after, 0);
    var f := FirstBrace(after, 0);
    assert after[f..] == text[from + f..];
    assert after[0..f] == text[from..from + f];
    if f < |after| {
      var rest := text[from + f..];
      assert IsFirstBrace(text, from, from + f);
      assert rest[..0] == [];
      CloseFromCloses(rest, 0, 0);
      CloseBound(rest, 0, 0);
    } else {
      assert after[0..f] == after;
    }
  }

  /**
   What `UsageObject` finds starts at the first brace behind the last key and is the shortest balanced text
   there; nothing is found only if there is no key, no brace behind it, or that brace never closes.
   */
  lemma UsageObjectMeaning(text: string)
    ensures match UsageObject(text)
            case Some(obj) =>
              exists p: nat, b: nat :: IsLastKey(text, p) && IsFirstBrace(text, p + |KEY|, b)
                                       && obj <= text[b..] && ClosesAt(text[b..], |obj|)
            case None =>
              NoKey(text) || exists p: nat :: IsLastKey(text, p) && Unclosed(text, p + |KEY|)
  {
    LastUpToIsLast(text, |text|);
    if LastOccurrence(text).Some? {
      var p := LastOccurrence(text).value;
      assert IsLastKey(text, p);
      FirstObjectMeaning(text, p + |KEY|);
    }
  }

  ghost predicate Unclosed(text: string, from: nat) {
    NoBrace(text, from) || exists b: nat :: IsFirstBrace(text, from, b) && NeverCloses(text[b..])
  }

  // ----- the scan -----

  /** `rfind`. */
  method FindLastKey(text: string) returns (at: Option<nat>)
    ensures at == LastOccurrence(text)
  {
    var p := |text|;
    while true
      invariant 0 <= p <= |text|
      invariant LastUpTo(text, p) == LastOccurrence(text)
      decreases p
    {
      if OccursAt(text, p) {
        return Some(p);
      }
      if p == 0 {
        return None;
      }
      p := p - 1;
    }
  }

  /** Counts braces from the first one on until they balance. */
  method FindObject(text: string) returns (obj: Option<string>)
    ensures obj == FirstObject(text)
  {
    var start := 0;
    while start < |text| && text[start] != '{'
      invariant 0 <= start <= |text|
      invariant FirstBrace(text, start) == FirstBrace(text, 0)
    {
      start := start + 1;
    }
    var rest := text[start..];
    var depth, i := 0, 0;
    while i < |rest|
      invariant 0 <= i <= |rest|
      invariant CloseFrom(rest, i, depth) == CloseFrom(rest, 0, 0)
    {
      if rest[i] == '{' {
        depth := depth + 1;
      } else if rest[i] == '}' {
        depth := depth - 1;
        if depth == 0 {
          return Some(rest[..i + 1]);
        }
      }
      i := i + 1;
    }
    obj := None;
  }

  /** `extract_usage`, up to parsing the object it finds. */
  method ExtractUsage(text: string) returns (obj: Option<string>)
    ensures obj == UsageObject(text)
  {
    var at := FindLastKey(text);
    LastUpToIsLast(text, |text|);
    if at.None? {
      return None;
    }
    obj := FindObject(text[at.value + |KEY|..]);
  }

  // ----- the tail is enough -----

  lemma TailOccurrences(body: string, cut: nat, p: nat)
    requires cut <= |body|
    ensures OccursAt(body[cut..], p) <==> OccursAt(body, cut + p)
  {
  }

  lemma TailLastOccurrence(body: string, cut: nat)
    requires cut <= |body|
    ensures var last := LastOccurrence(body);
            LastOccurrence(body[cut..])
            == if last.Some? && last.value >= cut then Some(last.value - cut) else None
  {
    var tail := body[cut..];
    LastUpToIsLast(body, |body|);
    LastUpToIsLast(tail, |tail|);
    var last, inTail := LastOccurrence(body), LastOccurrence(tail);
    if inTail.Some? {
      TailOccurrences(body, cut, inTail.value);
    }
    if last.Some? && last.value >= cut {
      TailOccurrences(body, cut, last.value - cut);
    }
  }

  /**
   Dropping the first `cut` characters of a body leaves its usage object as it is if and only if there is none, or
   the last key starts in what is left.
   */
  lemma TailIsEnough(body: string, cut: nat)
    requires cut <= |body|
    ensures UsageObject(body[cut..]) == UsageObject(body)
            <==> UsageObject(body).None? || LastOccurrence(body).value >= cut
  {
    TailLastOccurrence(body, cut);
    LastUpToIsLast(body, |body|);
    if LastOccurrence(body).Some? && LastOccurrence(body).value >= cut {
      var last := LastOccurrence(body).value;
      assert body[cut..][last - cut + |KEY|..] == body[last + |KEY|..];
    }
  }
}
