/**
 Keeping a conversation within its limits: src/conversationHistory.ts.  Trimming
 after every message keeps the same messages as trimming once at the end.
 */
module Conversation {
  import opened MinimalEdit

  datatype Role = User | Assistant

  /** What a stored history may hold: a message, or something that is not one. */
  datatype Entry = Message(role: Role, content: JsString) | Malformed

  datatype Limits = Limits(maxMessages: int, maxMessageChars: int, maxTotalChars: int)

  const TRUNCATION_NOTICE: string := "\n\n[conversation message truncated]"

  function Notice(): (r: JsString)
    ensures |r| == |TRUNCATION_NOTICE|
  {
    seq(|TRUNCATION_NOTICE|, i requires 0 <= i < |TRUNCATION_NOTICE| => (TRUNCATION_NOTICE[i] as int) % 0x1_0000)
  }

  function AtLeastZero(n: int): nat { if n < 0 then 0 else n }

  /** What String.prototype.trim removes. */
  predicate IsBlank(c: CodeUnit) {
    || 0x09 <= c <= 0x0D || c == 0x20 || c == 0xA0 || c == 0x1680 || 0x2000 <= c <= 0x200A
    || c == 0x2028 || c == 0x2029 || c == 0x202F || c == 0x205F || c == 0x3000 || c == 0xFEFF
  }

  /** truncateMessageContent: at most max units, with a notice where it fits. */
  function Truncate(content: JsString, max: nat): (r: JsString)
    ensures |r| == if |content| <= max then |content| else max
  {
    if |content| <= max then content
    else if max <= |TRUNCATION_NOTICE| then content[..max]
    else content[..max - |TRUNCATION_NOTICE|] + Notice()
  }

  predicate Usable(e: Entry, max: nat) {
    e.Message? && exists i :: 0 <= i < |Truncate(e.content, max)| && !IsBlank(Truncate(e.content, max)[i])
  }

  /** map(normalizeConversationMessage) and filter. */
  function Normalized(history: seq<Entry>, max: nat): (r: seq<Entry>)
    ensures |r| <= |history| && forall e :: e in r ==> e.Message? && |e.content| <= max && Usable(e, max)
  {
    if history == [] then []
    else
      var e := history[0];
      Kept(e, max) + Normalized(history[1..], max)
  }

  function Shorter(e: Entry, max: nat): (r: Entry)
    requires Usable(e, max)
    ensures r.Message? && |r.content| <= max && Usable(r, max)
  {
    assert Truncate(Truncate(e.content, max), max) == Truncate(e.content, max);
    e.(content := Truncate(e.content, max))
  }

  /** What one entry becomes: a list of one message or none. */
  function Kept(e: Entry, max: nat): seq<Entry> {
    if Usable(e, max) then [Shorter(e, max)] else []
  }

  /** slice(-n): for 0 that is slice(0), everything. */
  function SliceFromEnd(s: seq<Entry>, n: nat): seq<Entry> {
    if n == 0 || |s| <= n then s else s[|s| - n..]
  }

  function Length(e: Entry): nat { if e.Message? then |e.content| else 0 }

  /** getConversationCharCount. */
  function CharCount(s: seq<Entry>): nat {
    if s == [] then 0 else Length(s[0]) + CharCount(s[1..])
  }

  function Fit(s: seq<Entry>, total: nat): seq<Entry> {
    if CharCount(s) <= total then s else Fit(s[1..], total)
  }

  function Trimmed(history: seq<Entry>, limits: Limits): seq<Entry> {
    Fit(SliceFromEnd(Normalized(history, AtLeastZero(limits.maxMessageChars)), AtLeastZero(limits.maxMessages)),
        AtLeastZero(limits.maxTotalChars))
  }

  method TrimConversationHistory(history: seq<Entry>, limits: Limits) returns (normalized: seq<Entry>)
    ensures normalized == Trimmed(history, limits)
    ensures CharCount(normalized) <= (if limits.maxTotalChars < 0 then 0 else limits.maxTotalChars)
    ensures limits.maxMessages >= 1 ==> |normalized| <= limits.maxMessages
  {
    var total := AtLeastZero(limits.maxTotalChars);
    normalized := SliceFromEnd(Normalized(history, AtLeastZero(limits.maxMessageChars)),
                               AtLeastZero(limits.maxMessages));
    while CharCount(normalized) > total
      invariant Fit(normalized, total) == Trimmed(history, limits)
      invariant limits.maxMessages >= 1 ==> |normalized| <= limits.maxMessages
      decreases |normalized|
    {
      normalized := normalized[1..];
    }
  }

  method AppendConversationMessage(history: seq<Entry>, message: Entry, limits: Limits) returns (r: seq<Entry>)
    ensures r == Trimmed(history + [message], limits)
  {
    r := TrimConversationHistory(history + [message], limits);
  }

  // ------------------------------------------------------------ the longest suffix

  /** Within both limits; a message limit of 0 does not limit. */
  predicate Within(s: seq<Entry>, limits: Limits) {
    && (limits.maxMessages >= 1 ==> |s| <= limits.maxMessages)
    && CharCount(s) <= AtLeastZero(limits.maxTotalChars)
  }

  ghost predicate LongestSuffix(whole: seq<Entry>, r: seq<Entry>, limits: Limits) {
    && |r| <= |whole| && r == whole[|whole| - |r|..] && Within(r, limits)
    && forall k :: 0 <= k < |whole| - |r| ==> !Within(whole[k..], limits)
  }

  /** Drop from the front until the limits are met. */
  function Shortened(s: seq<Entry>, limits: Limits): seq<Entry>
  {
    if Within(s, limits) || s == [] then s else Shortened(s[1..], limits)
  }

  lemma {:induction false} SliceThenFit(s: seq<Entry>, limits: Limits)
    ensures Fit(SliceFromEnd(s, AtLeastZero(limits.maxMessages)), AtLeastZero(limits.maxTotalChars))
      == Shortened(s, limits)
  {
    var n := AtLeastZero(limits.maxMessages);
    if n == 0 || |s| <= n {
      FitIsShortened(s, limits);
    } else {
      SliceThenFit(s[1..], limits);
      assert SliceFromEnd(s, n) == SliceFromEnd(s[1..], n);
    }
  }

  lemma {:induction false} FitIsShortened(s: seq<Entry>, limits: Limits)
    requires limits.maxMessages >= 1 ==> |s| <= limits.maxMessages
    ensures Fit(s, AtLeastZero(limits.maxTotalChars)) == Shortened(s, limits)
  {
    if s != [] { FitIsShortened(s[1..], limits); }
  }

  lemma {:induction false} ShortenedIsLongest(s: seq<Entry>, limits: Limits)
    ensures LongestSuffix(s, Shortened(s, limits), limits)
  {
    if !Within(s, limits) && s != [] {
      ShortenedIsLongest(s[1..], limits);
      var r := Shortened(s, limits);
      forall k | 0 <= k < |s| - |r| ensures !Within(s[k..], limits) {
        if k > 0 { assert s[k..] == s[1..][k - 1..]; }
      }
    }
  }

  /** The result is the longest suffix of the normalized messages within the limits. */
  lemma {:induction false} TrimIsLongestSuffix(history: seq<Entry>, limits: Limits)
    ensures LongestSuffix(Normalized(history, AtLeastZero(limits.maxMessageChars)), Trimmed(history, limits), limits)
  {
    var s := Normalized(history, AtLeastZero(limits.maxMessageChars));
    SliceThenFit(s, limits);
    ShortenedIsLongest(s, limits);
  }

  // ---------------------------------------------------------- trimming trimmed lists

  lemma {:induction false} NormalizedAgain(s: seq<Entry>, max: nat)
    requires forall e :: e in s ==> e.Message? && |e.content| <= max && Usable(e, max)
    ensures Normalized(s, max) == s
  {
    if s != [] {
      assert s[0] in s;
      NormalizedAgain(s[1..], max);
    }
  }

  lemma {:induction false} NormalizedJoin(a: seq<Entry>, b: seq<Entry>, max: nat)
    ensures Normalized(a + b, max) == Normalized(a, max) + Normalized(b, max)
  {
    if a == [] {
      assert a + b == b;
    } else {
      NormalizedJoin(a[1..], b, max);
      NormalizedHead(a, max);
      NormalizedHead(a + b, max);
      hide Normalized, Kept;
      assert (a + b)[1..] == a[1..] + b;
      Regroup(Kept(a[0], max), Normalized(a[1..], max), Normalized(b, max));
    }
  }

  lemma Regroup(x: seq<Entry>, y: seq<Entry>, z: seq<Entry>)
    ensures x + (y + z) == (x + y) + z
  {
  }

  lemma {:induction false} NormalizedHead(s: seq<Entry>, max: nat)
    requires s != []
    ensures Normalized(s, max) == Kept(s[0], max) + Normalized(s[1..], max)
  {
  }

  lemma TrimmedStaysNormalized(history: seq<Entry>, limits: Limits)
    ensures Normalized(Trimmed(history, limits), AtLeastZero(limits.maxMessageChars)) == Trimmed(history, limits)
  {
    TrimIsLongestSuffix(history, limits);
    NormalizedAgain(Trimmed(history, limits), AtLeastZero(limits.maxMessageChars));
  }

  lemma {:induction false} CountsJoin(a: seq<Entry>, b: seq<Entry>)
    ensures CharCount(a + b) == CharCount(a) + CharCount(b)
  {
    if a == [] {
      assert a + b == b;
    } else {
      CountsJoin(a[1..], b);
      assert (a + b)[1..] == a[1..] + b;
    }
  }

  /** Shortening before a message is added loses nothing that would stay. */
  lemma {:induction false} ShortenedJoin(a: seq<Entry>, b: seq<Entry>, limits: Limits)
    ensures Shortened(Shortened(a, limits) + b, limits) == Shortened(a + b, limits)
  {
    if !Within(a, limits) && a != [] {
      ShortenedJoin(a[1..], b, limits);
      CountsJoin(a, b);
      assert (a + b)[1..] == a[1..] + b;
    }
  }

  lemma {:induction false} TrimmedIsShortened(history: seq<Entry>, limits: Limits)
    ensures Trimmed(history, limits) == Shortened(Normalized(history, AtLeastZero(limits.maxMessageChars)), limits)
  {
    SliceThenFit(Normalized(history, AtLeastZero(limits.maxMessageChars)), limits);
  }

  /** Trimming a trimmed history with more messages is trimming the whole. */
  lemma TrimmedThenMore(history: seq<Entry>, more: seq<Entry>, limits: Limits)
    ensures Trimmed(Trimmed(history, limits) + more, limits) == Trimmed(history + more, limits)
  {
    hide Trimmed, Normalized, Shortened;
    var max := AtLeastZero(limits.maxMessageChars);
    var t := Trimmed(history, limits);
    TrimmedIsShortened(history, limits);
    TrimmedIsShortened(t + more, limits);
    TrimmedIsShortened(history + more, limits);
    TrimmedStaysNormalized(history, limits);
    NormalizedJoin(t, more, max);
    NormalizedJoin(history, more, max);
    ShortenedJoin(Normalized(history, max), Normalized(more, max), limits);
  }

  lemma TrimIdempotent(history: seq<Entry>, limits: Limits)
    ensures Trimmed(Trimmed(history, limits), limits) == Trimmed(history, limits)
  {
    TrimmedThenMore(history, [], limits);
    assert Trimmed(history, limits) + [] == Trimmed(history, limits) && history + [] == history;
  }

  /** The history that appending the messages one by one leaves. */
  function Online(messages: seq<Entry>, limits: Limits): seq<Entry> {
    if messages == [] then []
    else Trimmed(Online(messages[..|messages| - 1], limits) + [messages[|messages| - 1]], limits)
  }

  /** Online trimming equals batch trimming. */
  lemma {:induction false} OnlineIsBatch(messages: seq<Entry>, limits: Limits)
    ensures Online(messages, limits) == Trimmed(messages, limits)
  {
    hide Trimmed;
    if messages == [] {
      TrimIsLongestSuffix([], limits);
    } else {
      var (front, last) := (messages[..|messages| - 1], messages[|messages| - 1]);
      OnlineIsBatch(front, limits);
      TrimmedThenMore(front, [last], limits);
      assert front + [last] == messages;
    }
  }

  /** No entry of the history is a message that normalization keeps. */
  predicate NoneUsable(history: seq<Entry>, max: nat) {
    forall i :: 0 <= i < |history| ==> !Usable(history[i], max)
  }

  /** The entry is the history's newest message that normalization keeps. */
  predicate NewestUsable(history: seq<Entry>, max: nat, i: nat) {
    i < |history| && Usable(history[i], max) && NoneUsable(history[i + 1..], max)
  }

  lemma {:induction false} NormalizedEmpty(history: seq<Entry>, max: nat)
    requires NoneUsable(history, max)
    ensures Normalized(history, max) == []
  {
    hide Usable;
    if history != [] {
      assert forall i :: 0 <= i < |history[1..]| ==> history[1..][i] == history[i + 1];
      NormalizedEmpty(history[1..], max);
    }
  }

  lemma {:induction false} NormalizedLast(history: seq<Entry>, max: nat, i: nat)
    requires NewestUsable(history, max, i)
    ensures Normalized(history, max) == Normalized(history[..i], max) + [Shorter(history[i], max)]
  {
    hide Usable, Shorter;
    var (front, rest) := (history[..i], history[i..]);
    assert history == front + rest && rest[1..] == history[i + 1..];
    NormalizedJoin(front, rest, max);
    NormalizedHead(rest, max);
    NormalizedEmpty(rest[1..], max);
  }

  lemma FindNewest(history: seq<Entry>, max: nat) returns (i: nat)
    requires !NoneUsable(history, max)
    ensures NewestUsable(history, max, i)
  {
    hide Usable;
    i := |history|;
    while i > 0 && !Usable(history[i - 1], max)
      invariant i <= |history| && forall k :: i <= k < |history| ==> !Usable(history[k], max)
    {
      i := i - 1;
    }
    i := i - 1;
  }

  lemma {:induction false} NothingFits(s: seq<Entry>, e: Entry, total: nat)
    requires forall m :: m in s + [e] ==> Length(m) > 0
    ensures Fit(s + [e], total) == [] <==> Length(e) > total
  {
    CountsJoin(s, [e]);
    if s == [] {
      assert s + [e] == [e] && [e][1..] == [];
    } else {
      assert (s + [e])[1..] == s[1..] + [e];
      NothingFits(s[1..], e, total);
    }
  }

  /** A kept message is not empty. */
  lemma UsableHasLength(e: Entry, max: nat)
    requires Usable(e, max)
    ensures Length(Shorter(e, max)) > 0
  {
  }

  lemma {:induction false} NormalizedNotBlank(history: seq<Entry>, max: nat)
    ensures forall m :: m in Normalized(history, max) ==> Length(m) > 0
  {
    hide Usable, Shorter;
    if history != [] {
      NormalizedNotBlank(history[1..], max);
      if Usable(history[0], max) { UsableHasLength(history[0], max); }
    }
  }

  /** With a message limit below 1, nothing is left exactly when no entry is a usable
      message or the newest usable one is longer, as shortened, than the total allows. */
  lemma NothingLeftExactlyWhen(history: seq<Entry>, limits: Limits)
    requires limits.maxMessages < 1
    ensures var (max, total) := (AtLeastZero(limits.maxMessageChars), AtLeastZero(limits.maxTotalChars));
      Trimmed(history, limits) == [] <==>
      || NoneUsable(history, max)
      || exists i: nat :: NewestUsable(history, max, i) && Length(Shorter(history[i], max)) > total
  {
    hide Usable, Shorter, NewestUsable, NoneUsable, Normalized;
    var (max, total) := (AtLeastZero(limits.maxMessageChars), AtLeastZero(limits.maxTotalChars));
    if NoneUsable(history, max) {
      NormalizedEmpty(history, max);
    } else {
      var i := FindNewest(history, max);
      NewestIsOne(history, max);
      NormalizedLast(history, max, i);
      NormalizedNotBlank(history, max);
      NothingFits(Normalized(history[..i], max), Shorter(history[i], max), total);
    }
  }

  lemma NewestIsOne(history: seq<Entry>, max: nat)
    ensures forall i: nat, j: nat :: NewestUsable(history, max, i) && NewestUsable(history, max, j) ==> i == j
    ensures forall i: nat :: NewestUsable(history, max, i) ==> i < |history| && Usable(history[i], max)
  {
    hide Usable;
    forall i: nat, j: nat | NewestUsable(history, max, i) && i < j < |history| ensures !Usable(history[j], max) {
      assert history[i + 1..][j - i - 1] == history[j];
    }
  }

  /** The message limit holds exactly when it is at least 1, or no entry is a usable
      message, or the newest usable one alone is longer than the total allows. */
  lemma MessageLimitExactlyWhen(history: seq<Entry>, limits: Limits)
    ensures var (max, total) := (AtLeastZero(limits.maxMessageChars), AtLeastZero(limits.maxTotalChars));
      |Trimmed(history, limits)| <= AtLeastZero(limits.maxMessages) <==>
      || limits.maxMessages >= 1
      || NoneUsable(history, max)
      || exists i: nat :: NewestUsable(history, max, i) && Length(Shorter(history[i], max)) > total
  {
    hide Trimmed, NewestUsable, NoneUsable, Shorter;
    if limits.maxMessages < 1 {
      NothingLeftExactlyWhen(history, limits);
    } else {
      TrimIsLongestSuffix(history, limits);
    }
  }

  /** A limit of 0 messages keeps every message. */
  lemma ZeroKeepsEverything(a: CodeUnit, b: CodeUnit)
    requires !IsBlank(a) && !IsBlank(b)
    ensures var history := [Message(User, [a]), Message(Assistant, [b])];
            Trimmed(history, Limits(0, 10, 10)) == history
  {
    var history := [Message(User, [a]), Message(Assistant, [b])];
    assert Truncate([a], 10)[0] == a && Truncate([b], 10)[0] == b;
    NormalizedAgain(history, 10);
    assert CharCount(history) == 1 + CharCount([Message(Assistant, [b])]);
  }

  // ------------------------------------------------------------ normal messages

  /** How a message is shortened: its beginning, and the notice where that fits. */
  lemma ShortenedMessage(content: JsString, max: nat)
    ensures |content| <= max ==> Truncate(content, max) == content
    ensures |content| > max && max <= 34 ==> Truncate(content, max) == content[..max]
    ensures |content| > max > 34 ==>
      var r := Truncate(content, max);
      && |r| == max && r[..max - 34] == content[..max - 34]
      && forall i :: 0 <= i < 34 ==> r[max - 34 + i] == "\n\n[conversation message truncated]"[i] as int
  {
  }

  /** Normalization goes entry by entry: a message whose shortened text is not all blank
      keeps its role, and everything else is dropped. */
  lemma {:induction false} NormalizedEntry(history: seq<Entry>, e: Entry, max: nat)
    ensures Normalized([], max) == []
    ensures Normalized(history + [e], max) == Normalized(history, max) +
      if e.Message? && exists i :: 0 <= i < |Truncate(e.content, max)| && !IsBlank(Truncate(e.content, max)[i])
      then [Message(e.role, Truncate(e.content, max))] else []
  {
    hide Truncate, IsBlank;
    NormalizedJoin(history, [e], max);
    assert [e][1..] == [] && Normalized([e], max) == Kept(e, max) + [];
  }
}
