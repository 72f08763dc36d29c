/** The identity of a cacheable request: a stream of length-prefixed fields, hashed.
    Strings are sequences of bytes. The digest is any function to strings of 64 bytes;
    what depends on it assumes that it does not collide on the inputs at hand. */
module CacheKey {
  import opened Prelude

  type Byte = b: int | 0 <= b < 256
  type Bytes = seq<Byte>

  datatype Scope = Scope(org: Bytes, team: Bytes, isolated: bool)

  datatype Message = Message(role: Bytes, content: Bytes)

  /** Temperature is the bit pattern of a float32, when one was given. */
  datatype Request = Request(
    model: Bytes,
    maxTokens: int,
    temperature: Option<int>,
    stop: seq<Bytes>,
    messages: seq<Message>)

  const TEAM_PREFIX: Bytes := [116, 101, 97, 109, 58]    // team:
  const ORG_PREFIX: Bytes := [111, 114, 103, 58]         // org:
  const SCOPE: Bytes := [115, 99, 111, 112, 101]         // scope
  const MODEL: Bytes := [109, 111, 100, 101, 108]        // model
  const MAXTOK: Bytes := [109, 97, 120, 116, 111, 107]   // maxtok
  const TEMP: Bytes := [116, 101, 109, 112]              // temp
  const STOP: Bytes := [115, 116, 111, 112]              // stop
  const ROLE: Bytes := [114, 111, 108, 101]              // role
  const MSG: Bytes := [109, 115, 103]                    // msg
  const FP: Bytes := [102, 112]                          // fp
  const Q: Bytes := [113]                                // q
  const NIL: Bytes := [110, 105, 108]                    // nil
  const MINUS: Byte := 45
  const ZERO: int := 48

  const INT64_MIN := -0x8000_0000_0000_0000
  const LEN_LIMIT := 0x4000_0000_0000_0000

  /** The tenant an entry belongs to. A team without an organisation keeps to itself. */
  function ScopeId(s: Scope): Bytes {
    if s.isolated || s.org == [] then TEAM_PREFIX + s.team else ORG_PREFIX + s.org
  }

  // ----- numbers as text -----

  /** The low bytes of a number, most significant first. */
  function BigEndian(n: nat, width: nat): (b: Bytes)
    ensures |b| == width
    decreases width
  {
    if width == 0 then [] else BigEndian(n / 256, width - 1) + [n % 256]
  }

  function Pow256(n: nat): (p: nat)
    ensures p > 0
  {
    if n == 0 then 1 else 256 * Pow256(n - 1)
  }

  /** Reads a number written with its most significant byte first. */
  function FromBigEndian(b: Bytes): nat {
    if b == [] then 0 else 256 * FromBigEndian(b[..|b| - 1]) + b[|b| - 1]
  }

  /** A number that fits is read back from its bytes. */
  lemma {:induction false} BigEndianRoundTrip(n: nat, width: nat)
    requires n < Pow256(width)
    ensures FromBigEndian(BigEndian(n, width)) == n
    decreases width
  {
    if width > 0 {
      BigEndianRoundTrip(n / 256, width - 1);
      var b := BigEndian(n, width);
      assert b[..width - 1] == BigEndian(n / 256, width - 1) && b[width - 1] == n % 256;
    }
  }

  lemma BigEndianInjective(m: nat, n: nat, width: nat)
    requires m < Pow256(width) && n < Pow256(width) && BigEndian(m, width) == BigEndian(n, width)
    ensures m == n
  {
    BigEndianRoundTrip(m, width);
    BigEndianRoundTrip(n, width);
  }

  /** Decimal digits of a number, none for zero. */
  function Digits(n: nat): (d: Bytes)
    ensures forall i :: 0 <= i < |d| ==> d[i] >= ZERO
    ensures n > 0 ==> d != []
  {
    if n == 0 then [] else Digits(n / 10) + [ZERO + n % 10]
  }

  /** Reads a number in decimal. */
  function FromDigits(d: Bytes): int {
    if d == [] then 0 else 10 * FromDigits(d[..|d| - 1]) + (d[|d| - 1] - ZERO)
  }

  /** A number is read back from its digits, and none of them is superfluous. */
  lemma {:induction false} DigitsRoundTrip(n: nat)
    ensures var d := Digits(n);
            && FromDigits(d) == n && (d != [] ==> d[0] != ZERO)
            && forall i :: 0 <= i < |d| ==> ZERO <= d[i] <= ZERO + 9
  {
    if n > 0 {
      DigitsRoundTrip(n / 10);
      var d, rest := Digits(n), Digits(n / 10);
      assert d[..|d| - 1] == rest && d[|d| - 1] == ZERO + n % 10;
      assert rest != [] ==> d[0] == rest[0];
      assert rest == [] ==> n == n % 10;
    }
  }

  lemma DigitsInjective(m: nat, n: nat)
    requires Digits(m) == Digits(n)
    ensures m == n
  {
    DigitsRoundTrip(m);
    DigitsRoundTrip(n);
  }

  /** Negation in 64 bits. */
  function Negate64(n: int): int {
    if n == INT64_MIN then INT64_MIN else -n
  }

  /** An int64 in decimal. The smallest one stays negative when negated, so its
      digit loop never runs and it comes out as a bare minus sign. */
  function Itoa(n: int): Bytes
    requires INT64_MIN <= n < -INT64_MIN
  {
    if n == 0 then [ZERO]
    else if n > 0 then Digits(n)
    else [MINUS] + Digits(if Negate64(n) > 0 then Negate64(n) else 0)
  }

  /** Fills a buffer from its end, one digit at a time. */
  method AppendInt(n: int) returns (b: Bytes)
    requires INT64_MIN <= n < -INT64_MIN
    ensures b == Itoa(n)
  {
    if n == 0 { return [ZERO]; }
    var m := if n < 0 then Negate64(n) else n;
    ghost var start := m;
    var tmp: Bytes := [];
    while m > 0
      invariant start <= 0 ==> m == start && tmp == []
      invariant start > 0 ==> 0 <= m && Digits(start) == Digits(m) + tmp
    {
      assert Digits(m) == Digits(m / 10) + [ZERO + m % 10];
      Regroup(Digits(m / 10), [ZERO + m % 10], tmp);
      tmp := [ZERO + m % 10] + tmp;
      m := m / 10;
    }
    b := if n < 0 then [MINUS] + tmp else tmp;
  }

  /** Every int64 but the smallest is read back from its text: an optional sign and decimal digits. */
  lemma ItoaRoundTrip(n: int)
    requires INT64_MIN <= n < -INT64_MIN
    ensures var b := Itoa(n);
            && (n >= 0 ==> FromDigits(b) == n)
            && (n < 0 ==> b != [] && b[0] == MINUS && FromDigits(b[1..]) == if n == INT64_MIN then 0 else -n)
  {
    DigitsRoundTrip(if n > 0 then n else if Negate64(n) > 0 then Negate64(n) else 0);
    assert n == 0 ==> Itoa(n)[..0] == [];
    assert n < 0 ==> Itoa(n)[1..] == Digits(if Negate64(n) > 0 then Negate64(n) else 0);
  }

  lemma ItoaInjective(m: int, n: int)
    requires INT64_MIN <= m < -INT64_MIN && INT64_MIN <= n < -INT64_MIN
    requires Itoa(m) == Itoa(n)
    ensures m == n
  {
    var a, b := Itoa(m), Itoa(n);
    assert a[0] == MINUS <==> m < 0;
    assert b[0] == MINUS <==> n < 0;
    if m < 0 {
      var x, y := if Negate64(m) > 0 then Negate64(m) else 0, if Negate64(n) > 0 then Negate64(n) else 0;
      assert a[1..] == Digits(x) && b[1..] == Digits(y);
      DigitsInjective(x, y);
    } else if m > 0 && n > 0 {
      DigitsInjective(m, n);
    } else {
      ZeroIsNoDigits(if m > 0 then m else n);
    }
  }

  lemma ZeroIsNoDigits(n: nat)
    ensures Digits(n) != [ZERO]
  {
    if n > 0 {
      var d := Digits(n);
      assert d[|d| - 1] == ZERO + n % 10;
      assert n >= 10 ==> |Digits(n / 10)| > 0;
    }
  }

  function HexDigit(n: int): Byte
    requires 0 <= n < 16
  {
    if n < 10 then ZERO + n else 87 + n
  }

  function Hex(b: Bytes): (h: Bytes)
    ensures |h| == 2 * |b|
  {
    if b == [] then [] else [HexDigit(b[0] / 16), HexDigit(b[0] % 16)] + Hex(b[1..])
  }

  lemma {:induction false} HexInjective(a: Bytes, b: Bytes)
    requires Hex(a) == Hex(b)
    ensures a == b
  {
    assert |a| == |b|;
    if a != [] {
      var x, y := Hex(a), Hex(b);
      assert x[0] == HexDigit(a[0] / 16) && x[1] == HexDigit(a[0] % 16) && x[2..] == Hex(a[1..]);
      assert y[0] == HexDigit(b[0] / 16) && y[1] == HexDigit(b[0] % 16) && y[2..] == Hex(b[1..]);
      HexInjective(a[1..], b[1..]);
      assert a == [a[0]] + a[1..] && b == [b[0]] + b[1..];
    }
  }

  /** The bit pattern of a temperature in hex, or a word that is no such pattern. */
  function TempText(t: Option<int>): Bytes
    requires t.Some? ==> t.value >= 0
  {
    if t.None? then NIL else Hex(BigEndian(t.value, 4))
  }

  lemma TempTextInjective(s: Option<int>, t: Option<int>)
    requires s.Some? ==> 0 <= s.value < 0x1_0000_0000
    requires t.Some? ==> 0 <= t.value < 0x1_0000_0000
    requires TempText(s) == TempText(t)
    ensures s == t
  {
    if s.Some? && t.Some? {
      HexInjective(BigEndian(s.value, 4), BigEndian(t.value, 4));
      assert Pow256(2) == 0x1_0000;
      assert Pow256(4) == 0x1_0000_0000;
      BigEndianInjective(s.value, t.value, 4);
    }
  }

  // ----- the field stream -----

  datatype Field = Field(name: Bytes, value: Bytes)

  /** Length, name, zero byte, value. */
  function WriteField(f: Field): Bytes {
    BigEndian(|f.name| + |f.value| + 1, 8) + f.name + [0] + f.value
  }

  /** What the hash is fed. */
  function Stream(fs: seq<Field>): (b: Bytes)
    ensures fs != [] ==> b != []
  {
    if fs == [] then [] else WriteField(fs[0]) + Stream(fs[1..])
  }

  /** A name without a zero byte, and a length that fits its prefix. */
  ghost predicate Writable(f: Field) {
    && (forall i :: 0 <= i < |f.name| ==> f.name[i] != 0)
    && |f.name| + |f.value| + 1 < 2 * LEN_LIMIT
  }

  ghost predicate AllWritable(fs: seq<Field>) {
    forall i :: 0 <= i < |fs| ==> Writable(fs[i])
  }

  lemma Pow256Of8()
    ensures Pow256(8) == 4 * LEN_LIMIT
  {
  }

  /** The length prefix, the body and the rest of a stream. */
  lemma FirstField(f: Field, rest: Bytes)
    ensures var x := WriteField(f) + rest;
            var n := |f.name| + |f.value| + 1;
            && |x| == 8 + n + |rest|
            && x[..8] == BigEndian(n, 8)
            && x[8..8 + n] == f.name + [0] + f.value
            && x[8 + n..] == rest
  {
    var n := |f.name| + |f.value| + 1;
    var body := f.name + [0] + f.value;
    assert WriteField(f) + rest == BigEndian(n, 8) + body + rest;
  }

  /** Two fields that start two equal streams are the same field. */
  lemma FieldsAlign(f: Field, g: Field, s: Bytes, t: Bytes)
    requires Writable(f) && Writable(g)
    requires WriteField(f) + s == WriteField(g) + t
    ensures f == g && s == t
  {
    LengthsAlign(f, g, s, t);
    FirstField(f, s);
    FirstField(g, t);
    NamesAlign(f.name, f.value, g.name, g.value);
  }

  lemma LengthsAlign(f: Field, g: Field, s: Bytes, t: Bytes)
    requires Writable(f) && Writable(g)
    requires WriteField(f) + s == WriteField(g) + t
    ensures |f.name| + |f.value| == |g.name| + |g.value|
  {
    FirstField(f, s);
    FirstField(g, t);
    Pow256Of8();
    BigEndianInjective(|f.name| + |f.value| + 1, |g.name| + |g.value| + 1, 8);
  }

  function FirstZero(x: Bytes): nat {
    if x == [] || x[0] == 0 then 0 else 1 + FirstZero(x[1..])
  }

  lemma {:induction false} NameEndsAtZero(name: Bytes, value: Bytes)
    requires forall i :: 0 <= i < |name| ==> name[i] != 0
    ensures FirstZero(name + [0] + value) == |name|
  {
    if name != [] {
      assert (name + [0] + value)[1..] == name[1..] + [0] + value;
      NameEndsAtZero(name[1..], value);
    }
  }

  /** The zero byte tells where the name ends. */
  lemma NamesAlign(p: Bytes, v: Bytes, q: Bytes, w: Bytes)
    requires p + [0] + v == q + [0] + w
    requires forall i :: 0 <= i < |p| ==> p[i] != 0
    requires forall i :: 0 <= i < |q| ==> q[i] != 0
    ensures p == q && v == w
  {
    NameEndsAtZero(p, v);
    NameEndsAtZero(q, w);
    var x, y := p + [0] + v, q + [0] + w;
    assert x[..|p|] == p && y[..|q|] == q && x[|p| + 1..] == v && y[|q| + 1..] == w;
  }

  /** No list of fields can be rearranged into the stream of another. */
  lemma {:induction false} StreamInjective(fs: seq<Field>, gs: seq<Field>)
    requires AllWritable(fs) && AllWritable(gs) && Stream(fs) == Stream(gs)
    ensures fs == gs
  {
    if fs != [] && gs != [] {
      FieldsAlign(fs[0], gs[0], Stream(fs[1..]), Stream(gs[1..]));
      StreamInjective(fs[1..], gs[1..]);
      assert fs == [fs[0]] + fs[1..] && gs == [gs[0]] + gs[1..];
    }
  }

  // ----- the fields of a request -----

  function StopFields(stop: seq<Bytes>): seq<Field> {
    if stop == [] then [] else [Field(STOP, stop[0])] + StopFields(stop[1..])
  }

  function MessageFields(ms: seq<Message>): seq<Field> {
    if ms == [] then []
    else [Field(ROLE, ms[0].role), Field(MSG, ms[0].content)] + MessageFields(ms[1..])
  }

  /** Every message before the final one. */
  function Earlier(req: Request): seq<Message> {
    if req.messages == [] then [] else req.messages[..|req.messages| - 1]
  }

  function LastContent(req: Request): Bytes {
    if req.messages == [] then [] else req.messages[|req.messages| - 1].content
  }

  /** The final message is set apart from all the others; of it, only the text is asked about. */
  lemma LastMessageIsTheQuery(req: Request)
    ensures if req.messages == [] then Earlier(req) == [] && LastContent(req) == []
            else exists m: Message :: m.content == LastContent(req) && Earlier(req) + [m] == req.messages
  {
    if req.messages != [] {
      var m := req.messages[|req.messages| - 1];
      assert Earlier(req) + [m] == req.messages;
    }
  }

  /** Sizes and ranges any real request has. */
  ghost predicate Representable(scope: Scope, req: Request) {
    && |scope.org| < LEN_LIMIT && |scope.team| < LEN_LIMIT
    && |req.model| < LEN_LIMIT
    && INT64_MIN <= req.maxTokens < -INT64_MIN
    && (req.temperature.Some? ==> 0 <= req.temperature.value < 0x1_0000_0000)
    && (forall i :: 0 <= i < |req.stop| ==> |req.stop[i]| < LEN_LIMIT)
    && forall i :: 0 <= i < |req.messages| ==> |req.messages[i].role| < LEN_LIMIT && |req.messages[i].content| < LEN_LIMIT
  }

  function Head(scope: Scope, req: Request): seq<Field>
    requires INT64_MIN <= req.maxTokens < -INT64_MIN && (req.temperature.Some? ==> req.temperature.value >= 0)
  {
    [Field(SCOPE, ScopeId(scope)), Field(MODEL, req.model), Field(MAXTOK, Itoa(req.maxTokens)),
     Field(TEMP, TempText(req.temperature))]
  }

  function Fields(scope: Scope, req: Request): seq<Field>
    requires INT64_MIN <= req.maxTokens < -INT64_MIN && (req.temperature.Some? ==> req.temperature.value >= 0)
  {
    Head(scope, req) + StopFields(req.stop) + MessageFields(Earlier(req))
  }

  /** Everything that changes the meaning of a response, and nothing else. */
  ghost predicate SameContext(s: Scope, a: Request, t: Scope, b: Request) {
    && ScopeId(s) == ScopeId(t)
    && a.model == b.model
    && a.maxTokens == b.maxTokens
    && a.temperature == b.temperature
    && a.stop == b.stop
    && Earlier(a) == Earlier(b)
  }

  lemma {:induction false} MessageFieldsInjective(a: seq<Message>, b: seq<Message>)
    requires MessageFields(a) == MessageFields(b)
    ensures a == b
  {
    if a != [] && b != [] {
      var x, y := MessageFields(a), MessageFields(b);
      assert x[0].value == a[0].role && x[1].value == a[0].content && x[2..] == MessageFields(a[1..]);
      assert y[0].value == b[0].role && y[1].value == b[0].content && y[2..] == MessageFields(b[1..]);
      MessageFieldsInjective(a[1..], b[1..]);
      assert a == [a[0]] + a[1..] && b == [b[0]] + b[1..];
    }
  }

  /** A tail that starts with a stop field is not one that starts with a role. */
  lemma StopIsNoRole(s: seq<Bytes>, a: seq<Message>, b: seq<Message>)
    requires s != []
    ensures StopFields(s) + MessageFields(a) != MessageFields(b)
  {
    assert (StopFields(s) + MessageFields(a))[0].name == STOP;
    assert b != [] ==> MessageFields(b)[0].name == ROLE;
  }

  lemma HeadAndTail<T>(x: T, xs: seq<T>, ys: seq<T>)
    ensures var all := [x] + xs + ys; |all| > 0 && all[0] == x && all[1..] == xs + ys
  {
  }

  lemma FirstStop(s: seq<Bytes>, a: seq<Message>)
    requires s != []
    ensures var x := StopFields(s) + MessageFields(a);
            |x| > 0 && x[0] == Field(STOP, s[0]) && x[1..] == StopFields(s[1..]) + MessageFields(a)
  {
    HeadAndTail(Field(STOP, s[0]), StopFields(s[1..]), MessageFields(a));
  }

  lemma {:induction false} TailsInjective(s: seq<Bytes>, a: seq<Message>, t: seq<Bytes>, b: seq<Message>)
    requires StopFields(s) + MessageFields(a) == StopFields(t) + MessageFields(b)
    ensures s == t && a == b
    decreases |s|
  {
    if s != [] && t != [] {
      FirstStop(s, a);
      FirstStop(t, b);
      TailsInjective(s[1..], a, t[1..], b);
      assert s == [s[0]] + s[1..] && t == [t[0]] + t[1..];
    } else {
      assert [] + MessageFields(a) == MessageFields(a) && [] + MessageFields(b) == MessageFields(b);
      if s != [] { StopIsNoRole(s, a, b); } else if t != [] { StopIsNoRole(t, b, a); }
      MessageFieldsInjective(a, b);
    }
  }

  lemma SplitEqual<T>(a: seq<T>, x: seq<T>, b: seq<T>, y: seq<T>)
    requires |a| == |b| && a + x == b + y
    ensures a == b && x == y
  {
    assert a == (a + x)[..|a|] && b == (b + y)[..|b|];
    assert x == (a + x)[|a|..] && y == (b + y)[|b|..];
  }

  lemma HeadInjective(s: Scope, a: Request, t: Scope, b: Request)
    requires Representable(s, a) && Representable(t, b) && Head(s, a) == Head(t, b)
    ensures ScopeId(s) == ScopeId(t) && a.model == b.model && a.maxTokens == b.maxTokens && a.temperature == b.temperature
  {
    var x, y := Head(s, a), Head(t, b);
    assert x[0].value == y[0].value && x[1].value == y[1].value;
    assert x[2].value == y[2].value && x[3].value == y[3].value;
    ItoaInjective(a.maxTokens, b.maxTokens);
    TempTextInjective(a.temperature, b.temperature);
  }

  lemma FieldsSplit(s: Scope, a: Request)
    requires Representable(s, a)
    ensures Fields(s, a) == Head(s, a) + (StopFields(a.stop) + MessageFields(Earlier(a)))
  {
  }

  lemma FieldsInjective(s: Scope, a: Request, t: Scope, b: Request)
    requires Representable(s, a) && Representable(t, b)
    requires Fields(s, a) == Fields(t, b)
    ensures SameContext(s, a, t, b)
  {
    var x, y := StopFields(a.stop) + MessageFields(Earlier(a)), StopFields(b.stop) + MessageFields(Earlier(b));
    FieldsSplit(s, a);
    FieldsSplit(t, b);
    SplitEqual(Head(s, a), x, Head(t, b), y);
    HeadInjective(s, a, t, b);
    TailsInjective(a.stop, Earlier(a), b.stop, Earlier(b));
  }

  // ----- keys -----

  /** The digest, in hex, and the whitespace normalisation of queries. */
  datatype Hashing = Hashing(digest: Bytes -> Bytes, normalize: Bytes -> Bytes)
  {
    ghost predicate Valid() {
      && (forall x :: |digest(x)| == 64)
      && forall x :: |normalize(x)| <= |x|
    }
  }

  datatype Key = Key(fingerprint: Bytes, query: Bytes, entryId: Bytes, teamId: Bytes, scopeId: Bytes)

  function EntryFields(fingerprint: Bytes, query: Bytes): seq<Field> {
    [Field(FP, fingerprint), Field(Q, query)]
  }

  function NewKey(h: Hashing, scope: Scope, req: Request): Key
    requires INT64_MIN <= req.maxTokens < -INT64_MIN && (req.temperature.Some? ==> req.temperature.value >= 0)
  {
    var fingerprint := h.digest(Stream(Fields(scope, req)));
    var query := h.normalize(LastContent(req));
    Key(fingerprint, query, h.digest(Stream(EntryFields(fingerprint, query))), scope.team, ScopeId(scope))
  }

  /** The digest does not collide on what these two requests feed it. */
  ghost predicate NoCollision(h: Hashing, s: Scope, a: Request, t: Scope, b: Request)
    requires Representable(s, a) && Representable(t, b)
  {
    var j, k := NewKey(h, s, a), NewKey(h, t, b);
    && (j.fingerprint == k.fingerprint ==> Stream(Fields(s, a)) == Stream(Fields(t, b)))
    && (j.entryId == k.entryId ==>
          Stream(EntryFields(j.fingerprint, j.query)) == Stream(EntryFields(k.fingerprint, k.query)))
  }

  lemma {:induction false} StopsWritable(stop: seq<Bytes>)
    requires forall i :: 0 <= i < |stop| ==> |stop[i]| < LEN_LIMIT
    ensures AllWritable(StopFields(stop))
  {
    if stop != [] { StopsWritable(stop[1..]); }
  }

  lemma {:induction false} MessagesWritable(ms: seq<Message>)
    requires forall i :: 0 <= i < |ms| ==> |ms[i].role| < LEN_LIMIT && |ms[i].content| < LEN_LIMIT
    ensures AllWritable(MessageFields(ms))
  {
    if ms != [] { MessagesWritable(ms[1..]); }
  }

  lemma {:induction false} DigitsLength(n: nat)
    ensures |Digits(n)| <= n
  {
    if n > 0 { DigitsLength(n / 10); }
  }

  lemma ItoaLength(n: int)
    requires INT64_MIN <= n < -INT64_MIN
    ensures |Itoa(n)| < LEN_LIMIT
  {
    var m := if n > 0 then n else if Negate64(n) > 0 then Negate64(n) else 0;
    DigitsLength(m / 10);
    assert m > 0 ==> |Digits(m)| == |Digits(m / 10)| + 1;
  }

  lemma HeadWritable(scope: Scope, req: Request)
    requires Representable(scope, req)
    ensures AllWritable(Head(scope, req))
  {
    ItoaLength(req.maxTokens);
  }

  lemma FieldsWritable(scope: Scope, req: Request)
    requires Representable(scope, req)
    ensures AllWritable(Fields(scope, req))
  {
    HeadWritable(scope, req);
    StopsWritable(req.stop);
    MessagesWritable(Earlier(req));
  }

  /** Two requests share a fingerprint exactly when they agree on the scope and on
      everything before the final message, and an entry exactly when they also agree
      on the normalised text of that message. Its role plays no part. */
  lemma KeysEqualIff(h: Hashing, s: Scope, a: Request, t: Scope, b: Request)
    requires h.Valid() && Representable(s, a) && Representable(t, b) && NoCollision(h, s, a, t, b)
    ensures var j, k := NewKey(h, s, a), NewKey(h, t, b);
            && (j.fingerprint == k.fingerprint <==> SameContext(s, a, t, b))
            && (j.entryId == k.entryId <==> SameContext(s, a, t, b) && j.query == k.query)
  {
    var j, k := NewKey(h, s, a), NewKey(h, t, b);
    if SameContext(s, a, t, b) {
      assert Fields(s, a) == Fields(t, b);
    }
    if j.fingerprint == k.fingerprint {
      FieldsWritable(s, a);
      FieldsWritable(t, b);
      StreamInjective(Fields(s, a), Fields(t, b));
      FieldsInjective(s, a, t, b);
    }
    if j.entryId == k.entryId {
      EntryFieldsAlign(h, s, a, t, b);
    }
  }

  lemma EntryFieldsAlign(h: Hashing, s: Scope, a: Request, t: Scope, b: Request)
    requires h.Valid() && Representable(s, a) && Representable(t, b) && NoCollision(h, s, a, t, b)
    requires NewKey(h, s, a).entryId == NewKey(h, t, b).entryId
    ensures NewKey(h, s, a).fingerprint == NewKey(h, t, b).fingerprint
    ensures NewKey(h, s, a).query == NewKey(h, t, b).query
  {
    var j, k := NewKey(h, s, a), NewKey(h, t, b);
    assert |LastContent(a)| < LEN_LIMIT && |LastContent(b)| < LEN_LIMIT;
    EntryStreamInjective(j.fingerprint, j.query, k.fingerprint, k.query);
  }

  lemma EntryStreamInjective(f: Bytes, p: Bytes, g: Bytes, q: Bytes)
    requires |f| < LEN_LIMIT && |p| < LEN_LIMIT && |g| < LEN_LIMIT && |q| < LEN_LIMIT
    requires Stream(EntryFields(f, p)) == Stream(EntryFields(g, q))
    ensures f == g && p == q
  {
    var x, y := EntryFields(f, p), EntryFields(g, q);
    assert AllWritable(x) && AllWritable(y);
    StreamInjective(x, y);
    assert x[0] == y[0] && x[1] == y[1];
  }

  /** A scope identifier tells tenants apart: organisations and teams never meet. */
  lemma ScopeIdsEqualIff(s: Scope, t: Scope)
    ensures ScopeId(s) == ScopeId(t)
            <==> var alone, alone' := s.isolated || s.org == [], t.isolated || t.org == [];
                 alone == alone' && (if alone then s.team == t.team else s.org == t.org)
  {
    var x, y := ScopeId(s), ScopeId(t);
    assert x[0] == y[0] ==> x[0] == TEAM_PREFIX[0] || x[0] == ORG_PREFIX[0];
    assert (TEAM_PREFIX + s.team)[5..] == s.team && (TEAM_PREFIX + t.team)[5..] == t.team;
    assert (ORG_PREFIX + s.org)[4..] == s.org && (ORG_PREFIX + t.org)[4..] == t.org;
  }

  // ----- the hash writer -----

  lemma {:induction false} StreamConcat(fs: seq<Field>, gs: seq<Field>)
    ensures Stream(fs + gs) == Stream(fs) + Stream(gs)
  {
    if fs == [] {
      assert fs + gs == gs;
    } else {
      assert (fs + gs)[1..] == fs[1..] + gs;
      StreamConcat(fs[1..], gs);
    }
  }

  lemma {:induction false} StopFieldsGrow(stop: seq<Bytes>, s: Bytes)
    ensures StopFields(stop + [s]) == StopFields(stop) + [Field(STOP, s)]
  {
    if stop == [] {
      assert stop + [s] == [s] && [s][1..] == [];
    } else {
      assert (stop + [s])[1..] == stop[1..] + [s];
      StopFieldsGrow(stop[1..], s);
    }
  }

  lemma {:induction false} MessageFieldsGrow(ms: seq<Message>, m: Message)
    ensures MessageFields(ms + [m]) == MessageFields(ms) + [Field(ROLE, m.role), Field(MSG, m.content)]
  {
    if ms == [] {
      assert ms + [m] == [m] && [m][1..] == [];
    } else {
      assert (ms + [m])[1..] == ms[1..] + [m];
      MessageFieldsGrow(ms[1..], m);
    }
  }

  lemma Regroup(a: Bytes, b: Bytes, c: Bytes)
    ensures (a + b) + c == a + (b + c)
  {
  }

  lemma FeedOneStop(fed0: Bytes, stop: seq<Bytes>, i: nat)
    requires i < |stop|
    ensures fed0 + Stream(StopFields(stop[..i])) + Stream([Field(STOP, stop[i])]) == fed0 + Stream(StopFields(stop[..i + 1]))
  {
    assert stop[..i + 1] == stop[..i] + [stop[i]];
    StopFieldsGrow(stop[..i], stop[i]);
    StreamConcat(StopFields(stop[..i]), [Field(STOP, stop[i])]);
    Regroup(fed0, Stream(StopFields(stop[..i])), Stream([Field(STOP, stop[i])]));
  }

  lemma FeedOneMessage(fed0: Bytes, ms: seq<Message>, i: nat)
    requires i < |ms|
    ensures var two := [Field(ROLE, ms[i].role), Field(MSG, ms[i].content)];
            fed0 + Stream(MessageFields(ms[..i])) + Stream(two) == fed0 + Stream(MessageFields(ms[..i + 1]))
  {
    var two := [Field(ROLE, ms[i].role), Field(MSG, ms[i].content)];
    assert ms[..i + 1] == ms[..i] + [ms[i]];
    MessageFieldsGrow(ms[..i], ms[i]);
    StreamConcat(MessageFields(ms[..i]), two);
    Regroup(fed0, Stream(MessageFields(ms[..i])), Stream(two));
  }

  method FeedStops(fed0: Bytes, stop: seq<Bytes>) returns (fed: Bytes)
    ensures fed == fed0 + Stream(StopFields(stop))
  {
    fed := fed0;
    for i := 0 to |stop|
      invariant fed == fed0 + Stream(StopFields(stop[..i]))
    {
      FeedOneStop(fed0, stop, i);
      fed := fed + Stream([Field(STOP, stop[i])]);
    }
    assert stop[..|stop|] == stop;
  }

  method FeedMessages(fed0: Bytes, ms: seq<Message>) returns (fed: Bytes)
    ensures fed == fed0 + Stream(MessageFields(ms))
  {
    fed := fed0;
    for i := 0 to |ms|
      invariant fed == fed0 + Stream(MessageFields(ms[..i]))
    {
      FeedOneMessage(fed0, ms, i);
      fed := fed + Stream([Field(ROLE, ms[i].role), Field(MSG, ms[i].content)]);
    }
    assert ms[..|ms|] == ms;
  }

  /** Feeds the fingerprint's fields one by one. */
  method FeedFingerprint(scope: Scope, req: Request) returns (fed: Bytes)
    requires INT64_MIN <= req.maxTokens < -INT64_MIN && (req.temperature.Some? ==> req.temperature.value >= 0)
    ensures fed == Stream(Fields(scope, req))
  {
    var maxTokens := AppendInt(req.maxTokens);
    fed := Stream([Field(SCOPE, ScopeId(scope)), Field(MODEL, req.model), Field(MAXTOK, maxTokens),
                   Field(TEMP, TempText(req.temperature))]);
    fed := FeedStops(fed, req.stop);
    fed := FeedMessages(fed, Earlier(req));
    StreamConcat(Head(scope, req), StopFields(req.stop));
    StreamConcat(Head(scope, req) + StopFields(req.stop), MessageFields(Earlier(req)));
  }
}
