/**
  * The rotation values an account pool stores, the guards over them, and the answer to a
  * write (gui/src/account-pool-strategy.ts).
  */
module PoolSettings {
  import opened Options

  datatype Strategy = Quota | RoundRobin | FillFirst | ResetWindow
  datatype ResetOrder = Soonest | Latest

  datatype Rotation = Rotation(strategy: Strategy, stickyLimit: int, resetOrder: ResetOrder)

  const MIN_STICKY_LIMIT := 1
  const MAX_STICKY_LIMIT := 100

  const DEFAULT_ROTATION := Rotation(Quota, 1, Soonest)

  /** A field of a decoded payload; an absent field reads as undefined. */
  datatype Json = JUndefined | JNull | JString(text: string) | JNumber(number: real) | JOther

  /** A decoded response body. */
  datatype Body = NotAnObject | Object(fields: map<string, Json>)

  function StrategyText(s: Strategy): string {
    match s
    case Quota => "quota"
    case RoundRobin => "round-robin"
    case FillFirst => "fill-first"
    case ResetWindow => "reset-window"
  }

  function ResetOrderText(o: ResetOrder): string {
    match o
    case Soonest => "soonest"
    case Latest => "latest"
  }

  predicate WithinStickyRange(n: int) {
    MIN_STICKY_LIMIT <= n <= MAX_STICKY_LIMIT
  }

  predicate ValidRotation(r: Rotation) {
    WithinStickyRange(r.stickyLimit)
  }

  // ---------------------------------------------------------------- normalizers

  /** A known spelling is itself; anything else is the default. */
  function NormalizeStrategy(value: Json): (r: Strategy)
    ensures forall s :: value == JString(StrategyText(s)) ==> r == s
    ensures (forall s :: value != JString(StrategyText(s))) ==> r == Quota
  {
    if value == JString(StrategyText(RoundRobin)) then RoundRobin
    else if value == JString(StrategyText(FillFirst)) then FillFirst
    else if value == JString(StrategyText(ResetWindow)) then ResetWindow
    else
      assert |"quota"| == 5 && |"round-robin"| == 11 && |"fill-first"| == 10 && |"reset-window"| == 12;
      Quota
  }

  function NormalizeResetOrder(value: Json): (r: ResetOrder)
    ensures forall o :: value == JString(ResetOrderText(o)) ==> r == o
    ensures (forall o :: value != JString(ResetOrderText(o))) ==> r == Soonest
  {
    if value == JString(ResetOrderText(Latest)) then Latest
    else
      assert |"soonest"| == 7 && |"latest"| == 6;
      Soonest
  }

  /** A whole number in range is itself; anything else is the default. */
  function NormalizeStickyLimit(value: Json): (r: int)
    ensures WithinStickyRange(r)
    ensures forall n: int :: WithinStickyRange(n) && value == JNumber(n as real) ==> r == n
    ensures r != 1 ==> value == JNumber(r as real)
  {
    if value.JNumber? && value.number.Floor as real == value.number && WithinStickyRange(value.number.Floor)
    then value.number.Floor
    else 1
  }

  // ---------------------------------------------------------------- payloads

  function Field(fields: map<string, Json>, name: string): Json {
    if name in fields then fields[name] else JUndefined
  }

  /** The rotation in an `/active` payload, or none when it carries no rotation field at all. */
  function RotationFromActive(body: Body): Option<Rotation> {
    if body.NotAnObject? then None
    else
      var row := body.fields;
      if "accountPoolStrategy" !in row && "accountPoolStickyLimit" !in row && "accountPoolResetOrder" !in row then None
      else Some(Rotation(
        NormalizeStrategy(Field(row, "accountPoolStrategy")),
        NormalizeStickyLimit(Field(row, "accountPoolStickyLimit")),
        NormalizeResetOrder(Field(row, "accountPoolResetOrder"))))
  }

  /** `left ?? right` */
  function OrElse(left: Json, right: Json): Json {
    if left == JUndefined || left == JNull then right else left
  }

  /** What the client takes a successful write to have stored: reported fields first, then its own. */
  function StoredStrategy(body: Body, requested: Rotation): Rotation {
    var reported := if body.NotAnObject? then map[] else body.fields;
    Rotation(
      NormalizeStrategy(OrElse(Field(reported, "accountPoolStrategy"), JString(StrategyText(requested.strategy)))),
      NormalizeStickyLimit(OrElse(Field(reported, "accountPoolStickyLimit"), JNumber(requested.stickyLimit as real))),
      NormalizeResetOrder(OrElse(Field(reported, "accountPoolResetOrder"), JString(ResetOrderText(requested.resetOrder)))))
  }

  /** A payload field tells the truth when it is the stored value, or is absent and the request was kept. */
  predicate FieldTells(field: Json, stored: Json, requested: Json) {
    OrElse(field, requested) == stored
  }

  ghost predicate Truthful(body: Body, requested: Rotation, stored: Rotation) {
    var f := if body.NotAnObject? then map[] else body.fields;
    && FieldTells(Field(f, "accountPoolStrategy"), JString(StrategyText(stored.strategy)),
                  JString(StrategyText(requested.strategy)))
    && FieldTells(Field(f, "accountPoolStickyLimit"), JNumber(stored.stickyLimit as real),
                  JNumber(requested.stickyLimit as real))
    && FieldTells(Field(f, "accountPoolResetOrder"), JString(ResetOrderText(stored.resetOrder)),
                  JString(ResetOrderText(requested.resetOrder)))
  }

  /** The listener's payload for the rotation it stores, whatever else it carries. */
  ghost predicate Reports(body: Body, r: Rotation) {
    && body.Object?
    && Field(body.fields, "accountPoolStrategy") == JString(StrategyText(r.strategy))
    && Field(body.fields, "accountPoolStickyLimit") == JNumber(r.stickyLimit as real)
    && Field(body.fields, "accountPoolResetOrder") == JString(ResetOrderText(r.resetOrder))
  }

  /** Reading a complete payload gives back exactly the rotation it reports. */
  lemma ReadBack(body: Body, r: Rotation)
    requires Reports(body, r) && ValidRotation(r)
    ensures RotationFromActive(body) == Some(r)
  {
    var row := body.fields;
    assert NormalizeStrategy(Field(row, "accountPoolStrategy")) == r.strategy;
    assert NormalizeStickyLimit(Field(row, "accountPoolStickyLimit")) == r.stickyLimit;
    assert NormalizeResetOrder(Field(row, "accountPoolResetOrder")) == r.resetOrder;
    assert "accountPoolStrategy" in row;
  }

  /** A truthful answer, however many fields it leaves out, gives back exactly what was stored. */
  lemma StoredIsRead(body: Body, requested: Rotation, stored: Rotation)
    requires Truthful(body, requested, stored) && ValidRotation(stored)
    ensures StoredStrategy(body, requested) == stored
  {
    assert NormalizeStrategy(JString(StrategyText(stored.strategy))) == stored.strategy;
    assert NormalizeStickyLimit(JNumber(stored.stickyLimit as real)) == stored.stickyLimit;
    assert NormalizeResetOrder(JString(ResetOrderText(stored.resetOrder))) == stored.resetOrder;
  }

  // ---------------------------------------------------------------- the sticky-limit draft

  /** The characters `String.prototype.trim` removes. */
  predicate IsSpace(c: char) {
    || '\t' <= c <= '\r' || c == ' ' || c == '\U{00A0}' || c == '\U{1680}'
    || '\U{2000}' <= c <= '\U{200A}' || c == '\U{2028}' || c == '\U{2029}'
    || c == '\U{202F}' || c == '\U{205F}' || c == '\U{3000}' || c == '\U{FEFF}'
  }

  function Trim(s: string): string {
    if s != [] && IsSpace(s[0]) then Trim(s[1..])
    else if s != [] && IsSpace(s[|s| - 1]) then Trim(s[..|s| - 1])
    else s
  }

  predicate IsDigit(c: char) {
    '0' <= c <= '9'
  }

  predicate AllDigits(s: string) {
    forall c :: c in s ==> IsDigit(c)
  }

  function NumberOf(s: string): nat
    requires AllDigits(s)
  {
    if s == [] then 0
    else
      assert IsDigit(s[|s| - 1]);
      10 * NumberOf(s[..|s| - 1]) + (s[|s| - 1] as int - '0' as int)
  }

  /** `String(n)` of a whole number. */
  function DecimalText(n: nat): string {
    if n < 10 then [('0' as int + n) as char] else DecimalText(n / 10) + [('0' as int + n % 10) as char]
  }

  /** Only an unsigned decimal inside the range is taken. */
  function ParseDraft(text: string): Option<int> {
    var trimmed := Trim(text);
    if trimmed == [] || !AllDigits(trimmed) then None
    else if WithinStickyRange(NumberOf(trimmed)) then Some(NumberOf(trimmed))
    else None
  }

  lemma {:induction false} DecimalTextReads(n: nat)
    ensures DecimalText(n) != [] && AllDigits(DecimalText(n)) && NumberOf(DecimalText(n)) == n
  {
    if n >= 10 {
      DecimalTextReads(n / 10);
      var digit := ('0' as int + n % 10) as char;
      assert DecimalText(n)[..|DecimalText(n)| - 1] == DecimalText(n / 10);
      assert IsDigit(digit);
    }
  }

  lemma {:induction false} TrimPadded(before: string, text: string, after: string)
    requires text != [] && AllDigits(text)
    requires (forall c :: c in before ==> IsSpace(c)) && (forall c :: c in after ==> IsSpace(c))
    ensures Trim(before + text + after) == text
    decreases |before| + |after|
  {
    var s := before + text + after;
    if before != [] {
      assert s[1..] == before[1..] + text + after;
      TrimPadded(before[1..], text, after);
    } else if after != [] {
      assert s[0] == text[0] && IsDigit(text[0]);
      assert s[..|s| - 1] == before + text + after[..|after| - 1];
      TrimPadded(before, text, after[..|after| - 1]);
    } else {
      assert s == text;
      assert IsDigit(text[0]) && IsDigit(text[|text| - 1]);
    }
  }

  /** The text the controls write for a limit parses back to it, with any white space around it. */
  lemma DraftRoundTrip(n: int, before: string, after: string)
    requires WithinStickyRange(n)
    requires (forall c :: c in before ==> IsSpace(c)) && (forall c :: c in after ==> IsSpace(c))
    ensures ParseDraft(before + DecimalText(n) + after) == Some(n)
  {
    DecimalTextReads(n);
    TrimPadded(before, DecimalText(n), after);
  }

  /** All of these characters are white space. */
  predicate Blank(s: string) {
    forall c :: c in s ==> IsSpace(c)
  }

  lemma {:induction false} TrimSplits(s: string) returns (before: string, after: string)
    ensures s == before + Trim(s) + after && Blank(before) && Blank(after)
    ensures Trim(s) != [] ==> !IsSpace(Trim(s)[0]) && !IsSpace(Trim(s)[|Trim(s)| - 1])
    decreases |s|
  {
    if s != [] && IsSpace(s[0]) {
      var b, a := TrimSplits(s[1..]);
      before, after := [s[0]] + b, a;
    } else if s != [] && IsSpace(s[|s| - 1]) {
      var b, a := TrimSplits(s[..|s| - 1]);
      before, after := b, a + [s[|s| - 1]];
    } else {
      before, after := [], [];
    }
  }

  /** A draft stands for a limit: digits of that value, in range, with only white space around them. */
  ghost predicate Spells(text: string, n: int) {
    exists before: string, digits: string, after: string ::
      && text == before + digits + after && Blank(before) && Blank(after)
      && digits != [] && AllDigits(digits) && NumberOf(digits) == n && 1 <= n <= 100
  }

  /** The parser takes exactly the drafts that spell a limit. */
  lemma ParseDraftIsExact(text: string, n: int)
    ensures ParseDraft(text) == Some(n) <==> Spells(text, n)
  {
    if ParseDraft(text) == Some(n) {
      var before, after := TrimSplits(text);
      assert text == before + Trim(text) + after;
    }
    if Spells(text, n) {
      var before: string, digits: string, after: string :|
        && text == before + digits + after && Blank(before) && Blank(after)
        && digits != [] && AllDigits(digits) && NumberOf(digits) == n && 1 <= n <= 100;
      TrimPadded(before, digits, after);
    }
  }
}
