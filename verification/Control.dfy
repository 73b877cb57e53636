/**
 The control server: one request per connection, either the legacy queue-status
 integer or a GET or SET of one of two variables in text.
 */
module Control {
  import opened Decimal
  import opened Options
  import opened OutputSlot
  import opened Sequences

  const NAME_A := "sampleVariableA"
  const NAME_B := "sampleVariableB"

  /** The buffers that sscanf fills with one token and a terminator. */
  const TOKEN_BUFFER := 100

  /**
   What recv gave, and what the stack held beforehand: four bytes past the
   text's terminator, and the contents of the two uninitialised token buffers.
   */
  datatype Message = Message(text: string, stale: string, oldName: string, oldValue: string)

  datatype Request = QueueStatus | Get(name: string) | Set(name: string, value: string) | Unknown

  datatype Variables = Variables(a: int32, b: int32)

  const START := Variables(0, 1)

  /** Where the text ends for C, from position i on: at its first NUL. */
  function NulAt(s: string, i: nat): (n: nat)
    requires i <= |s|
    ensures i <= n <= |s|
    decreases |s| - i
  {
    if i < |s| && s[i] != '\0' then NulAt(s, i + 1) else i
  }

  function SkipFrom(s: string, i: nat): (n: nat)
    requires i <= |s|
    ensures i <= n <= |s|
    decreases |s| - i
  {
    if i < |s| && IsSpace(s[i]) then SkipFrom(s, i + 1) else i
  }

  function WordEnd(s: string, i: nat): (n: nat)
    requires i <= |s|
    ensures i <= n <= |s|
    decreases |s| - i
  {
    if i < |s| && !IsSpace(s[i]) then WordEnd(s, i + 1) else i
  }

  /** The characters from i up to j, copied one by one. */
  function Copied(s: string, i: nat, j: nat): (r: string)
    requires i <= j <= |s|
    ensures |r| == j - i
    decreases j - i
  {
    if i == j then "" else [s[i]] + Copied(s, i + 1, j)
  }

  /** One "%s" of sscanf: the next word, or what the buffer held when there is none; and where the scan stops. */
  function ScanWord(s: string, i: nat, held: string): (r: (string, nat))
    requires i <= |s|
    ensures i <= r.1 <= |s|
  {
    var start := SkipFrom(s, i);
    var end := WordEnd(s, start);
    (if start == end then held else Copied(s, start, end), end)
  }

  /** The first bytes of the receive buffer: the text, its terminator, what was there before. */
  function ByteAt(m: Message, k: nat): char {
    if k < |m.text| then m.text[k]
    else if |m.text| < k <= |m.text| + |m.stale| then m.stale[k - |m.text| - 1]
    else '\0'
  }

  /** The legacy request: AUDIO_OUTPUT_REQUEST as a little-endian int. */
  predicate IsLegacy(m: Message) {
    ByteAt(m, 0) == 2 as char && ByteAt(m, 1) == '\0' && ByteAt(m, 2) == '\0' && ByteAt(m, 3) == '\0'
  }

  predicate StartsWith(text: string, a: char, b: char, c: char, d: char) {
    |text| >= 4 && text[0] == a && text[1] == b && text[2] == c && text[3] == d
  }

  /** The request in a message, tried in the order the server tries them. */
  function Parse(m: Message): Request {
    if IsLegacy(m) then QueueStatus
    else if StartsWith(m.text, 'G', 'E', 'T', ' ') then Get(ScanWord(m.text[..NulAt(m.text, 4)], 4, m.oldName).0)
    else if StartsWith(m.text, 'S', 'E', 'T', ' ') then
      var text := m.text[..NulAt(m.text, 4)];
      var (name, at) := ScanWord(text, 4, m.oldName);
      Set(name, ScanWord(text, at, m.oldValue).0)
    else Unknown
  }

  function After(v: Variables, r: Request): Variables {
    if !r.Set? then v
    else if r.name == NAME_A then v.(a := Atoi(r.value))
    else if r.name == NAME_B then v.(b := Atoi(r.value))
    else v
  }

  function Reply(v: Variables, r: Request, activeClient: int): string {
    match r
    case QueueStatus => QueueReply(activeClient)
    case Get(name) =>
      if name == NAME_A then Printed(v.a)
      else if name == NAME_B then Printed(v.b)
      else "RESPONSE_UNKNOWN_VARIABLE"
    case Set(name, _) => if name == NAME_A || name == NAME_B then "RESPONSE_OK" else "RESPONSE_ERROR"
    case Unknown => "RESPONSE_ERROR"
  }

  /** Every word fits its buffer. */
  predicate Fitting(r: Request) {
    (r.Get? || r.Set? ==> |r.name| < TOKEN_BUFFER) && (r.Set? ==> |r.value| < TOKEN_BUFFER)
  }

  datatype Outcome = Closed | Replied(reply: string) | Overrun

  function AfterMessage(v: Variables, m: Message): Variables {
    if m.text == "" then v else After(v, Parse(m))
  }

  /** A message with a word too long for its buffer. */
  predicate Overruns(m: Message) {
    m.text != "" && !Fitting(Parse(m))
  }

  /** `next` and `bad` are what a message does to the variables and whether it overruns. */
  ghost predicate Describe(next: (Variables, Message) -> Variables, bad: Message -> bool) {
    && (forall v, m {:trigger AfterMessage(v, m)} :: next(v, m) == AfterMessage(v, m))
    && (forall m {:trigger Overruns(m)} :: bad(m) == Overruns(m))
  }

  /** The first n messages, one after the other. */
  function Fold(v: Variables, ms: seq<Message>, n: nat, next: (Variables, Message) -> Variables): Variables
    requires n <= |ms|
  {
    if n == 0 then v else next(Fold(v, ms, n - 1, next), ms[n - 1])
  }

  // ---------- The protocol in plain terms ----------

  predicate Blanks(s: string) {
    forall i :: 0 <= i < |s| ==> IsSpace(s[i])
  }

  /** Not empty, no white space, no NUL. */
  predicate Solid(s: string) {
    s != "" && forall i :: 0 <= i < |s| ==> !IsSpace(s[i]) && s[i] != '\0'
  }

  /** After the words of a request anything may follow, set off by white space or a NUL. */
  predicate Trailer(s: string) {
    s == "" || IsSpace(s[0]) || s[0] == '\0'
  }

  function GetText(blanks: string, name: string, tail: string): string {
    "GET " + blanks + name + tail
  }

  function SetText(blanks: string, name: string, gap: string, value: string, tail: string): string {
    "SET " + blanks + name + gap + value + tail
  }

  /** How a GET of a name is answered. */
  predicate GetAnswered(name: string, a: int32, b: int32, a': int32, b': int32, outcome: Outcome) {
    && (outcome == Overrun <==> |name| >= 100)
    && (outcome != Overrun ==>
          && a' == a && b' == b
          && outcome == Replied(if name == "sampleVariableA" then Printed(a)
                                else if name == "sampleVariableB" then Printed(b)
                                else "RESPONSE_UNKNOWN_VARIABLE"))
  }

  /** How a SET of a name is answered, and what it sets. */
  predicate SetAnswered(name: string, value: string, a: int32, b: int32, a': int32, b': int32, outcome: Outcome) {
    && (outcome == Overrun <==> |name| >= 100 || |value| >= 100)
    && (outcome != Overrun ==>
          && a' == (if name == "sampleVariableA" then Atoi(value) else a)
          && b' == (if name == "sampleVariableB" then Atoi(value) else b)
          && outcome == Replied(if name == "sampleVariableA" || name == "sampleVariableB" then "RESPONSE_OK"
                                else "RESPONSE_ERROR"))
  }

  /**
   The answer to a message, and the variables after it, by what the message
   reads: the legacy integer 2, a GET, a SET, words that are missing, any other.
   */
  ghost predicate PlainlyAnswered(m: Message, activeClient: int, a': int32, b': int32, outcome: Outcome,
                                  a: int32, b: int32)
  {
    && (|m.text| >= 4 && m.text[..4] == [2 as char, 0 as char, 0 as char, 0 as char] ==>
          outcome == Replied(if activeClient == -1 then "not_queued" else "queued") && a' == a && b' == b)
    && (forall blanks, name, tail {:trigger GetText(blanks, name, tail)} ::
          Blanks(blanks) && Solid(name) && Trailer(tail) && m.text == GetText(blanks, name, tail) ==>
          GetAnswered(name, a, b, a', b', outcome))
    && (forall blanks, name, gap, value, tail {:trigger SetText(blanks, name, gap, value, tail)} ::
          Blanks(blanks) && Solid(name) && gap != "" && Blanks(gap) && Solid(value) && Trailer(tail)
          && m.text == SetText(blanks, name, gap, value, tail) ==>
          SetAnswered(name, value, a, b, a', b', outcome))
    && (|m.text| >= 4 && m.text[..4] == "GET " && Blanks(m.text[4..]) ==>
          GetAnswered(m.oldName, a, b, a', b', outcome))
    && (|m.text| >= 4 && m.text[..4] == "SET " && Blanks(m.text[4..]) ==>
          SetAnswered(m.oldName, m.oldValue, a, b, a', b', outcome))
    && (|m.text| >= 4 && m.text[..4] !in ["GET ", "SET ", [2 as char, 0 as char, 0 as char, 0 as char]] ==>
          outcome == Replied("RESPONSE_ERROR") && a' == a && b' == b)
    && (0 < |m.text| < 4 && m.text[0] as int != 2 ==>
          outcome == Replied("RESPONSE_ERROR") && a' == a && b' == b)
    && (m.text == "" ==> outcome == Closed && a' == a && b' == b)
  }

  /** What the specification says of a message. */
  function OutcomeOf(m: Message, activeClient: int, v: Variables): Outcome {
    if m.text == "" then Closed else if Overruns(m) then Overrun else Replied(Reply(v, Parse(m), activeClient))
  }

  lemma {:induction false} NulBeyond(text: string, i: nat, k: nat)
    requires i <= k <= |text| && forall j :: i <= j < k ==> text[j] != '\0'
    ensures NulAt(text, i) >= k
    ensures k < |text| && text[k] == '\0' ==> NulAt(text, i) == k
    ensures k < |text| && text[k] != '\0' ==> NulAt(text, i) > k
    decreases k - i
  {
    if i < k {
      NulBeyond(text, i + 1, k);
    }
  }

  lemma {:induction false} SkipFromIs(s: string, i: nat, j: nat)
    requires i <= j <= |s| && forall k :: i <= k < j ==> IsSpace(s[k])
    requires j < |s| ==> !IsSpace(s[j])
    ensures SkipFrom(s, i) == j
    decreases j - i
  {
    if i < j {
      SkipFromIs(s, i + 1, j);
    }
  }

  lemma {:induction false} WordEndIs(s: string, i: nat, end: nat)
    requires i <= end <= |s| && forall k :: i <= k < end ==> !IsSpace(s[k])
    requires end < |s| ==> IsSpace(s[end])
    ensures WordEnd(s, i) == end
    decreases end - i
  {
    if i < end {
      WordEndIs(s, i + 1, end);
    }
  }

  lemma {:induction false} CopiedIsSlice(s: string, i: nat, j: nat)
    requires i <= j <= |s|
    ensures Copied(s, i, j) == s[i..j]
    decreases j - i
  {
    if i < j {
      CopiedIsSlice(s, i + 1, j);
    }
  }

  /** White space, then a word that ends where the text does or at white space, is what a scan finds. */
  lemma {:induction false} ScanFinds(s: string, i: nat, start: nat, end: nat, held: string)
    requires i <= start < end <= |s|
    requires forall k :: i <= k < start ==> IsSpace(s[k])
    requires forall k :: start <= k < end ==> !IsSpace(s[k])
    requires end < |s| ==> IsSpace(s[end])
    ensures ScanWord(s, i, held) == (s[start..end], end)
  {
    SkipFromIs(s, i, start);
    WordEndIs(s, start, end);
    CopiedIsSlice(s, start, end);
  }

  /** Where there is nothing but white space the buffer keeps what it held. */
  lemma {:induction false} ScanMisses(s: string, i: nat, held: string)
    requires i <= |s| && forall k :: i <= k < |s| ==> IsSpace(s[k])
    ensures ScanWord(s, i, held) == (held, |s|)
  {
    SkipFromIs(s, i, |s|);
  }

  /** Stretches of a text that are blank or solid, by position. */
  lemma {:induction false} Stretch(text: string, at: nat, piece: string)
    requires at + |piece| <= |text| && text[at..at + |piece|] == piece
    ensures Blanks(piece) ==> forall k :: at <= k < at + |piece| ==> IsSpace(text[k])
    ensures Solid(piece) ==> forall k :: at <= k < at + |piece| ==> !IsSpace(text[k]) && text[k] != '\0'
  {
    forall k | at <= k < at + |piece|
      ensures text[k] == piece[k - at]
    {
      assert text[at..at + |piece|][k - at] == text[k];
    }
  }

  /** From position i to j the text is white space, or one word. */
  predicate BlankAt(t: string, i: nat, j: nat) {
    i <= j <= |t| && forall k :: i <= k < j ==> IsSpace(t[k])
  }

  predicate SolidAt(t: string, i: nat, j: nat) {
    i < j <= |t| && forall k :: i <= k < j ==> !IsSpace(t[k]) && t[k] != '\0'
  }

  predicate EndsAt(t: string, j: nat) {
    j <= |t| && (j < |t| ==> IsSpace(t[j]) || t[j] == '\0')
  }

  lemma {:induction false} GetAt(m: Message, start: nat, end: nat)
    requires StartsWith(m.text, 'G', 'E', 'T', ' ') && 4 <= start
    requires BlankAt(m.text, 4, start) && SolidAt(m.text, start, end) && EndsAt(m.text, end)
    ensures Parse(m) == Get(m.text[start..end])
  {
    NulBeyond(m.text, 4, end);
    var s := m.text[..NulAt(m.text, 4)];
    ScanFinds(s, 4, start, end, m.oldName);
    SliceOfPrefix(m.text, |s|, start, end);
  }

  lemma {:induction false} SetAt(m: Message, start: nat, end: nat, next: nat, last: nat)
    requires StartsWith(m.text, 'S', 'E', 'T', ' ') && 4 <= start && end < next
    requires BlankAt(m.text, 4, start) && SolidAt(m.text, start, end)
    requires BlankAt(m.text, end, next) && SolidAt(m.text, next, last) && EndsAt(m.text, last)
    ensures Parse(m) == Set(m.text[start..end], m.text[next..last])
  {
    NulBeyond(m.text, 4, last);
    var s := m.text[..NulAt(m.text, 4)];
    ScanFinds(s, 4, start, end, m.oldName);
    ScanFinds(s, end, next, last, m.oldValue);
    SliceOfPrefix(m.text, |s|, start, end);
    SliceOfPrefix(m.text, |s|, next, last);
  }

  lemma {:induction false} PiecesAt(t: string, at: nat, piece: string, rest: string)
    requires at <= |t| && t[at..] == piece + rest
    ensures at + |piece| <= |t| && t[at..at + |piece|] == piece && t[at + |piece|..] == rest
    ensures Blanks(piece) ==> BlankAt(t, at, at + |piece|)
    ensures Solid(piece) ==> SolidAt(t, at, at + |piece|)
  {
    SliceOfRest(t, at, |piece|);
    CutApart(piece, rest);
    Stretch(t, at, piece);
  }

  lemma {:induction false} ParseGet(blanks: string, name: string, tail: string, m: Message)
    requires Blanks(blanks) && Solid(name) && Trailer(tail) && m.text == GetText(blanks, name, tail)
    ensures Parse(m) == Get(name)
  {
    var t := m.text;
    Associate("GET " + blanks, name, tail);
    Associate("GET ", blanks, name + tail);
    Prefixed(t, "GET ", blanks + (name + tail));
    PiecesAt(t, 4, blanks, name + tail);
    PiecesAt(t, 4 + |blanks|, name, tail);
    var end := 4 + |blanks| + |name|;
    assert end < |t| ==> t[end] == t[end..][0];
    GetAt(m, 4 + |blanks|, end);
  }

  lemma {:induction false} SetTextPieces(blanks: string, name: string, gap: string, value: string, tail: string)
    ensures SetText(blanks, name, gap, value, tail) == "SET " + (blanks + (name + (gap + (value + tail))))
  {
    Associate("SET " + blanks + name + gap, value, tail);
    Associate("SET " + blanks + name, gap, value + tail);
    Associate("SET " + blanks, name, gap + (value + tail));
    Associate("SET ", blanks, name + (gap + (value + tail)));
  }

  /** Two words behind a prefix of four, by position. */
  lemma {:induction false} TwoWordsAt(t: string, blanks: string, name: string, gap: string, rest: string)
    requires |t| >= 4 && t[4..] == blanks + (name + (gap + rest))
    requires Blanks(blanks) && Solid(name) && gap != "" && Blanks(gap)
    ensures var start := 4 + |blanks|; var end := start + |name|; var next := end + |gap|;
            && BlankAt(t, 4, start) && SolidAt(t, start, end) && t[start..end] == name
            && BlankAt(t, end, next) && t[next..] == rest
  {
    PiecesAt(t, 4, blanks, name + (gap + rest));
    PiecesAt(t, 4 + |blanks|, name, gap + rest);
    PiecesAt(t, 4 + |blanks| + |name|, gap, rest);
  }

  /** The second of them, and what follows. */
  lemma {:induction false} LastWordAt(t: string, next: nat, value: string, tail: string, last: nat)
    requires next <= |t| && t[next..] == value + tail && last == next + |value|
    requires Solid(value) && Trailer(tail)
    ensures SolidAt(t, next, last) && t[next..last] == value && EndsAt(t, last)
  {
    PiecesAt(t, next, value, tail);
    assert last < |t| ==> t[last] == t[last..][0];
  }

  lemma {:induction false} ParseSet(blanks: string, name: string, gap: string, value: string, tail: string, m: Message)
    requires Blanks(blanks) && Solid(name) && gap != "" && Blanks(gap) && Solid(value) && Trailer(tail)
    requires m.text == SetText(blanks, name, gap, value, tail)
    ensures Parse(m) == Set(name, value)
  {
    var start := 4 + |blanks|;
    var end := start + |name|;
    var next := end + |gap|;
    SetLayout(blanks, name, gap, value, tail, m.text);
    TwoWordsAt(m.text, blanks, name, gap, value + tail);
    LastWordAt(m.text, next, value, tail, next + |value|);
    SetAt(m, start, end, next, next + |value|);
  }

  lemma {:induction false} SetLayout(blanks: string, name: string, gap: string, value: string, tail: string, t: string)
    requires t == SetText(blanks, name, gap, value, tail)
    ensures StartsWith(t, 'S', 'E', 'T', ' ') && t[4..] == blanks + (name + (gap + (value + tail)))
  {
    SetTextPieces(blanks, name, gap, value, tail);
    Prefixed(t, "SET ", blanks + (name + (gap + (value + tail))));
  }

  lemma {:induction false} Prefixed(t: string, prefix: string, rest: string)
    requires t == prefix + rest && |prefix| == 4
    ensures |t| >= 4 && t[4..] == rest && StartsWith(t, prefix[0], prefix[1], prefix[2], prefix[3])
  {
  }

  lemma {:induction false} ParseBlank(m: Message)
    requires |m.text| >= 4 && Blanks(m.text[4..])
    ensures m.text[..4] == "GET " ==> Parse(m) == Get(m.oldName)
    ensures m.text[..4] == "SET " ==> Parse(m) == Set(m.oldName, m.oldValue)
  {
    var t := m.text;
    assert t[..4][0] == t[0] && t[..4][1] == t[1] && t[..4][2] == t[2] && t[..4][3] == t[3];
    assert t[4..|t|] == t[4..];
    Stretch(t, 4, t[4..]);
    NulBeyond(t, 4, |t|);
    assert t[..|t|] == t;
    ScanMisses(t, 4, m.oldName);
    ScanMisses(t, |t|, m.oldValue);
  }

  lemma {:induction false} ParseOther(m: Message)
    requires m.text != ""
    ensures |m.text| >= 4 && m.text[..4] == [2 as char, 0 as char, 0 as char, 0 as char] ==> Parse(m) == QueueStatus
    ensures |m.text| >= 4 && m.text[..4] !in ["GET ", "SET ", [2 as char, 0 as char, 0 as char, 0 as char]] ==>
              Parse(m) == Unknown
    ensures |m.text| < 4 && m.text[0] as int != 2 ==> Parse(m) == Unknown
  {
    var t := m.text;
    if |t| >= 4 {
      assert t[..4] == [t[0], t[1], t[2], t[3]];
    }
  }

  lemma {:induction false} GetsArePlain(m: Message)
    ensures forall blanks, name, tail {:trigger GetText(blanks, name, tail)} ::
              Blanks(blanks) && Solid(name) && Trailer(tail) && m.text == GetText(blanks, name, tail) ==>
              Parse(m) == Get(name) && m.text != ""
  {
    forall blanks, name, tail {:trigger GetText(blanks, name, tail)}
      | Blanks(blanks) && Solid(name) && Trailer(tail) && m.text == GetText(blanks, name, tail)
      ensures Parse(m) == Get(name)
    {
      ParseGet(blanks, name, tail, m);
    }
  }

  lemma {:induction false} SetsArePlain(m: Message)
    ensures forall blanks, name, gap, value, tail {:trigger SetText(blanks, name, gap, value, tail)} ::
              Blanks(blanks) && Solid(name) && gap != "" && Blanks(gap) && Solid(value) && Trailer(tail)
              && m.text == SetText(blanks, name, gap, value, tail) ==>
              Parse(m) == Set(name, value) && m.text != ""
  {
    forall blanks, name, gap, value, tail {:trigger SetText(blanks, name, gap, value, tail)}
      | Blanks(blanks) && Solid(name) && gap != "" && Blanks(gap) && Solid(value) && Trailer(tail)
        && m.text == SetText(blanks, name, gap, value, tail)
      ensures Parse(m) == Set(name, value)
    {
      ParseSet(blanks, name, gap, value, tail, m);
    }
  }

  /** Whatever its words, a GET or SET request is answered in these terms. */
  lemma AnsweredAsParsed(r: Request, activeClient: int, v: Variables)
    ensures var outcome := if Fitting(r) then Replied(Reply(v, r, activeClient)) else Overrun;
            var v' := if Fitting(r) then After(v, r) else v;
            && (r.Get? ==> GetAnswered(r.name, v.a, v.b, v'.a, v'.b, outcome))
            && (r.Set? ==> SetAnswered(r.name, r.value, v.a, v.b, v'.a, v'.b, outcome))
            && (r.QueueStatus? ==> outcome == Replied(if activeClient == -1 then "not_queued" else "queued") && v' == v)
            && (r.Unknown? ==> outcome == Replied("RESPONSE_ERROR") && v' == v)
  {
  }

  lemma {:induction false} AnswersArePlain(m: Message, activeClient: int, v: Variables)
    ensures var outcome, v' := OutcomeOf(m, activeClient, v), if Overruns(m) then v else AfterMessage(v, m);
            PlainlyAnswered(m, activeClient, v'.a, v'.b, outcome, v.a, v.b)
  {
    AnsweredAsParsed(Parse(m), activeClient, v);
    GetsArePlain(m);
    SetsArePlain(m);
    if m.text != "" {
      ParseOther(m);
    }
    if |m.text| >= 4 && Blanks(m.text[4..]) {
      ParseBlank(m);
    }
  }

  class Server {
    var sampleVariableA: int32
    var sampleVariableB: int32

    ghost function Abs(): Variables
      reads this
    {
      Variables(sampleVariableA, sampleVariableB)
    }

    constructor ()
      ensures Abs() == START && sampleVariableA == 0 && sampleVariableB == 1
    {
      sampleVariableA, sampleVariableB := 0, 1;
    }

    method GetVariableValue(name: string) returns (value: Option<string>)
      ensures value == if name == NAME_A then Some(Printed(Abs().a))
                       else if name == NAME_B then Some(Printed(Abs().b)) else None
    {
      if name == NAME_A {
        value := Some(Printed(sampleVariableA));
      } else if name == NAME_B {
        value := Some(Printed(sampleVariableB));
      } else {
        value := None;
      }
    }

    method SetVariableValue(name: string, value: string) returns (result: int)
      modifies this
      ensures Abs() == After(old(Abs()), Set(name, value))
      ensures result == if name == NAME_A || name == NAME_B then 0 else -1
    {
      result := 0;
      if name == NAME_A {
        sampleVariableA := Atoi(value);
      } else if name == NAME_B {
        sampleVariableB := Atoi(value);
      } else {
        result := -1;
      }
    }

    /**
     One connection. An empty receive is a closed one. A word that overruns its
     buffer is undefined, and is reported here as an overrun.
     */
    method HandleControlClient(m: Message, activeClientSock: int) returns (outcome: Outcome)
      modifies this
      ensures outcome.Closed? <==> m.text == ""
      ensures outcome.Overrun? <==> Overruns(m)
      ensures outcome.Closed? ==> Abs() == old(Abs())
      ensures outcome.Replied? ==> outcome.reply == Reply(old(Abs()), Parse(m), activeClientSock)
      ensures outcome.Replied? ==> Abs() == After(old(Abs()), Parse(m))
      ensures PlainlyAnswered(m, activeClientSock, sampleVariableA, sampleVariableB, outcome,
                              old(sampleVariableA), old(sampleVariableB))
    {
      AnswersArePlain(m, activeClientSock, Abs());
      if m.text == "" {
        return Closed;
      }
      if IsLegacy(m) {
        outcome := Replied(QueueReply(activeClientSock));
      } else if StartsWith(m.text, 'G', 'E', 'T', ' ') {
        var (name, _) := ScanWord(m.text[..NulAt(m.text, 4)], 4, m.oldName);
        if |name| >= TOKEN_BUFFER {
          return Overrun;
        }
        var value := GetVariableValue(name);
        outcome := Replied(if value.Some? then value.value else "RESPONSE_UNKNOWN_VARIABLE");
      } else if StartsWith(m.text, 'S', 'E', 'T', ' ') {
        var text := m.text[..NulAt(m.text, 4)];
        var (name, at) := ScanWord(text, 4, m.oldName);
        var (value, _) := ScanWord(text, at, m.oldValue);
        if |name| >= TOKEN_BUFFER || |value| >= TOKEN_BUFFER {
          return Overrun;
        }
        var result := SetVariableValue(name, value);
        outcome := Replied(if result == 0 then "RESPONSE_OK" else "RESPONSE_ERROR");
      } else {
        outcome := Replied("RESPONSE_ERROR");
      }
    }

    method Handle(m: Message, activeClientSock: int,
                  ghost next: (Variables, Message) -> Variables, ghost bad: Message -> bool)
      returns (overrun: bool)
      requires Describe(next, bad)
      modifies this
      ensures overrun <==> bad(m)
      ensures !overrun ==> Abs() == next(old(Abs()), m)
    {
      var outcome := HandleControlClient(m, activeClientSock);
      overrun := outcome.Overrun?;
      assert overrun == Overruns(m);
      assert !overrun ==> Abs() == AfterMessage(old(Abs()), m);
    }

    /** The accept loop, which need not know how a message is read. */
    method HandleEach(ms: seq<Message>, activeClientSock: nat -> int,
                      ghost next: (Variables, Message) -> Variables, ghost bad: Message -> bool)
      returns (overrun: bool)
      requires Describe(next, bad)
      modifies this
      ensures overrun <==> exists i :: 0 <= i < |ms| && bad(ms[i])
      ensures !overrun ==> Abs() == Fold(old(Abs()), ms, |ms|, next)
    {
      var i := 0;
      while i < |ms|
        invariant 0 <= i <= |ms|
        invariant forall j :: 0 <= j < i ==> !bad(ms[j])
        invariant Abs() == Fold(old(Abs()), ms, i, next)
      {
        overrun := Handle(ms[i], activeClientSock(i), next, bad);
        if overrun {
          return;
        }
        i := i + 1;
      }
      overrun := false;
    }

    /** All connections up to the first overrun; who is active may change from one message to the next. */
    method HandleAll(ms: seq<Message>, activeClientSock: nat -> int) returns (overrun: bool)
      requires Abs() == START
      modifies this
      ensures overrun <==> exists i :: 0 <= i < |ms| && Overruns(ms[i])
      ensures !overrun ==> Abs() == History(ms)
    {
      overrun := HandleEach(ms, activeClientSock, AfterMessage, Overruns);
      FoldIsHistory(ms, |ms|);
      assert ms[..|ms|] == ms;
    }
  }

  /** The variables after a history of messages. */
  function History(ms: seq<Message>): Variables {
    if ms == [] then START else
      AfterMessage(History(ms[..|ms| - 1]), ms[|ms| - 1])
  }

  lemma {:induction false} FoldIsHistory(ms: seq<Message>, n: nat)
    requires n <= |ms|
    ensures Fold(START, ms, n, AfterMessage) == History(ms[..n])
  {
    if n > 0 {
      assert ms[..n][..n - 1] == ms[..n - 1];
      FoldIsHistory(ms, n - 1);
    }
  }

  /** The word that the latest SET of a variable carried. */
  function LastSet(ms: seq<Message>, name: string): Option<string> {
    if ms == [] then None else
      var last := ms[|ms| - 1];
      var r := Parse(last);
      if last.text != "" && r.Set? && r.name == name then Some(r.value) else LastSet(ms[..|ms| - 1], name)
  }

  /** A variable holds what its own latest SET said, whatever else was asked in between. */
  lemma {:induction false} LatestSetIsHeld(ms: seq<Message>)
    ensures History(ms).a == (var w := LastSet(ms, "sampleVariableA"); if w.Some? then Atoi(w.value) else 0)
    ensures History(ms).b == (var w := LastSet(ms, "sampleVariableB"); if w.Some? then Atoi(w.value) else 1)
  {
    if ms == [] {
    } else {
      LatestSetIsHeld(ms[..|ms| - 1]);
    }
  }

  /** A word that a client may send: not empty, no white space or NUL, short enough for its buffer. */
  predicate Word(s: string) {
    |s| < 100 && Solid(s)
  }

  predicate WellFormed(r: Request) {
    (r.Get? && Word(r.name)) || (r.Set? && Word(r.name) && Word(r.value))
  }

  /** How a client spells a request. */
  function Render(r: Request): string
    requires WellFormed(r)
  {
    if r.Get? then "GET " + r.name else "SET " + r.name + " " + r.value
  }

  /** A request comes out of its message as it went in, whatever the stack held. */
  lemma ParseRendered(r: Request, m: Message)
    requires WellFormed(r) && m.text == Render(r)
    ensures Parse(m) == r && Fitting(r)
  {
    if r.Get? {
      assert m.text == GetText("", r.name, "");
      ParseGet("", r.name, "", m);
    } else {
      assert m.text == SetText("", r.name, " ", r.value, "");
      ParseSet("", r.name, " ", r.value, "", m);
    }
  }

  predicate Sets(m: Message, name: string) {
    var r := Parse(m);
    m.text != "" && r.Set? && r.name == name
  }

  lemma {:induction false} OthersDoNotInterfere(before: seq<Message>, between: seq<Message>, name: string)
    requires forall i :: 0 <= i < |between| ==> !Sets(between[i], name)
    ensures LastSet(before + between, name) == LastSet(before, name)
  {
    var all := before + between;
    if between == [] {
      assert all == before;
    } else {
      assert all[..|all| - 1] == before + between[..|between| - 1];
      assert all[|all| - 1] == between[|between| - 1];
      OthersDoNotInterfere(before, between[..|between| - 1], name);
    }
  }

  lemma SignedIsWord(v: int32)
    ensures Word(Signed(v))
  {
    assert Power10(10) == 10 * Power10(9);
    Powers();
    DigitCount(Magnitude(v), 10);
    forall i | 0 <= i < |Signed(v)| ensures !IsSpace(Signed(v)[i]) && Signed(v)[i] != '\0' {
      assert Signed(v)[i] == '-' || IsDigit(Signed(v)[i]);
    }
  }

  lemma NamesAreWords()
    ensures Word(NAME_A) && Word(NAME_B)
  {
  }

  lemma LastSetOf(before: seq<Message>, m: Message, between: seq<Message>, name: string)
    requires Sets(m, name) && forall i :: 0 <= i < |between| ==> !Sets(between[i], name)
    ensures LastSet(before + [m] + between, name) == Some(Parse(m).value)
  {
    OthersDoNotInterfere(before + [m], between, name);
    assert (before + [m])[|before|] == m;
  }

  /** The reply to a GET, by what the latest SET of the variable said. */
  lemma GetReturnsLastSet(ms: seq<Message>, name: string, v: int32, activeClient: int)
    requires (name == NAME_A || name == NAME_B) && LastSet(ms, name) == Some(Signed(v))
    ensures Reply(History(ms), Get(name), activeClient) == Signed(v) <==> Fits(v)
  {
    LatestSetIsHeld(ms);
    AtoiOfSigned(v);
    PrintedWhole(v);
  }

  /**
   A number set in decimal text comes back in a later GET as the same text
   exactly when it fits the print buffer, whatever requests came before and
   whatever requests other than a SET of that variable came in between.
   */
  lemma SetThenGet(before: seq<Message>, setMessage: Message, between: seq<Message>, getMessage: Message,
                   name: string, v: int32, activeClient: int)
    requires name == "sampleVariableA" || name == "sampleVariableB"
    requires setMessage.text == "SET " + name + " " + Signed(v) && getMessage.text == "GET " + name
    requires forall i :: 0 <= i < |between| ==> !Sets(between[i], name)
    ensures Reply(History(before + [setMessage] + between), Parse(getMessage), activeClient) == Signed(v) <==> Fits(v)
  {
    NamesAreWords();
    SignedIsWord(v);
    ParseRendered(Set(name, Signed(v)), setMessage);
    ParseRendered(Get(name), getMessage);
    LastSetOf(before, setMessage, between, name);
    GetReturnsLastSet(before + [setMessage] + between, name, v, activeClient);
  }
}
