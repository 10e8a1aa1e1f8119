/**
 The memcached text protocol, over byte strings (one `char` per byte): requests can
 be read back uniquely, a get response parses to its value exactly when it is one,
 whatever the value contains, and a stats response yields exactly its pairs within
 the bounds.
 */
module Memcached {
  import opened Options
  import opened Decimals

  const MAX_VALUE := 0x10_0000
  const MAX_TTL := 30 * 24 * 60 * 60
  const MAX_UINT32 := 0xffff_ffff
  const READ_BUFFER := 4096
  const MAX_STATS := 1024
  const MAX_STATS_BYTES := 0x4_0000

  type Uint32 = n: nat | n <= MAX_UINT32

  datatype Command = Command(operation: string, key: string, value: string, flags: Uint32, ttl: Uint32)

  // ---- Requests

  predicate KeyByteOk(c: char) {
    c as int > 32 && c as int != 127
  }

  predicate KeyOk(key: string) {
    1 <= |key| <= 250 && forall i :: 0 <= i < |key| ==> KeyByteOk(key[i])
  }

  predicate IsValid(c: Command) {
    if c.operation == "stats" then c.key == "" && c.value == "" && c.flags == 0 && c.ttl == 0
    else if c.operation == "get" || c.operation == "delete" then
      c.value == "" && c.flags == 0 && c.ttl == 0 && KeyOk(c.key)
    else if c.operation == "set" then |c.value| <= MAX_VALUE && c.ttl <= MAX_TTL && KeyOk(c.key)
    else false
  }

  method Validate(c: Command) returns (ok: bool)
    ensures ok == IsValid(c)
    ensures ok ==> |c.key| <= 250 && |c.value| <= 1_048_576 && c.ttl <= 2_592_000
  {
    match c.operation {
      case "stats" =>
        return c.key == "" && c.value == "" && c.flags == 0 && c.ttl == 0;
      case "get" =>
        if c.value != "" || c.flags != 0 || c.ttl != 0 {
          return false;
        }
      case "delete" =>
        if c.value != "" || c.flags != 0 || c.ttl != 0 {
          return false;
        }
      case "set" =>
        if |c.value| > MAX_VALUE || c.ttl > MAX_TTL {
          return false;
        }
      case _ =>
        return false;
    }
    if |c.key| == 0 || |c.key| > 250 {
      return false;
    }
    for i := 0 to |c.key|
      invariant forall j :: 0 <= j < i ==> KeyByteOk(c.key[j])
    {
      if c.key[i] as int <= 32 || c.key[i] as int == 127 {
        return false;
      }
    }
    ok := true;
  }

  /** The fields of the request line. */
  function RequestFields(c: Command): seq<string> {
    if c.operation == "stats" then ["stats"]
    else if c.operation == "set" then ["set", c.key, Decimal(c.flags), Decimal(c.ttl), Decimal(|c.value|)]
    else [c.operation, c.key]
  }

  function Encode(c: Command): string {
    JoinFields(RequestFields(c)) + "\r\n" + (if c.operation == "set" then c.value + "\r\n" else "")
  }

  // ---- Lines and fields

  function IndexOf(s: string, c: char): (n: nat)
    ensures n <= |s|
    ensures n < |s| ==> s[n] == c
    ensures forall i :: 0 <= i < n ==> s[i] != c
  {
    if s == "" || s[0] == c then 0 else 1 + IndexOf(s[1..], c)
  }

  lemma IndexIs(s: string, c: char, n: nat)
    requires n < |s| && s[n] == c && forall i :: 0 <= i < n ==> s[i] != c
    ensures IndexOf(s, c) == n
  {
  }

  /** A line up to `limit` bytes, its terminator included, and what follows it. */
  function ReadLine(s: string, limit: nat): Option<(string, string)> {
    var n := IndexOf(s, '\n');
    if n == |s| || n + 1 > limit || n == 0 || s[n - 1] != '\r' then None
    else Some((s[..n - 1], s[n + 1..]))
  }

  lemma ReadsLine(line: string, rest: string, limit: nat)
    requires '\n' !in line && |line| + 2 <= limit
    ensures ReadLine(line + "\r\n" + rest, limit) == Some((line, rest))
  {
    var s := line + "\r\n" + rest;
    assert s[|line|] == '\r' && s[|line| + 1] == '\n';
    assert forall i :: 0 <= i < |line| ==> s[i] == line[i];
    IndexIs(s, '\n', |line| + 1);
    assert s[..|line|] == line && s[|line| + 2..] == rest;
  }

  lemma LineRead(s: string, limit: nat)
    requires ReadLine(s, limit).Some?
    ensures
      var (line, rest) := ReadLine(s, limit).value;
      s == line + "\r\n" + rest && '\n' !in line && |line| + 2 <= limit
  {
    var n := IndexOf(s, '\n');
    assert s == s[..n - 1] + [s[n - 1]] + [s[n]] + s[n + 1..];
  }

  /** `strings.Split` at single spaces. */
  function Split(s: string): seq<string>
    decreases |s|
  {
    var n := IndexOf(s, ' ');
    if n == |s| then [s] else [s[..n]] + Split(s[n + 1..])
  }

  function JoinFields(fields: seq<string>): string {
    if fields == [] then "" else if |fields| == 1 then fields[0] else fields[0] + " " + JoinFields(fields[1..])
  }

  lemma SplitField(field: string, rest: string)
    requires ' ' !in field
    ensures Split(field + " " + rest) == [field] + Split(rest)
  {
    var s := field + " " + rest;
    assert s[|field|] == ' ' && forall i :: 0 <= i < |field| ==> s[i] == field[i];
    IndexIs(s, ' ', |field|);
    assert s[..|field|] == field && s[|field| + 1..] == rest;
  }

  predicate IsField(s: string) {
    ' ' !in s && '\n' !in s
  }

  /** An upper bound on the length of the joined fields. */
  function FieldBytes(fields: seq<string>): nat {
    if fields == [] then 0 else |fields[0]| + 1 + FieldBytes(fields[1..])
  }

  /** Joining is undone by splitting. */
  lemma {:induction false} JoinSplits(fields: seq<string>)
    requires fields != [] && forall i :: 0 <= i < |fields| ==> IsField(fields[i])
    ensures Split(JoinFields(fields)) == fields
    ensures '\n' !in JoinFields(fields) && |JoinFields(fields)| <= FieldBytes(fields)
  {
    if |fields| == 1 {
      assert IsField(fields[0]) && fields == [fields[0]];
    } else {
      var rest := fields[1..];
      forall i | 0 <= i < |rest|
        ensures IsField(rest[i])
      {
        assert rest[i] == fields[i + 1];
      }
      JoinSplits(rest);
      assert IsField(fields[0]);
      SplitField(fields[0], JoinFields(rest));
    }
  }

  lemma JoinCons(first: string, rest: seq<string>)
    requires rest != []
    ensures JoinFields([first] + rest) == first + " " + JoinFields(rest)
  {
    assert ([first] + rest)[1..] == rest;
  }

  lemma CutAt(s: string, n: nat)
    requires n < |s| && s[n] == ' '
    ensures s == s[..n] + " " + s[n + 1..]
  {
  }

  lemma {:induction false} SplitJoins(s: string)
    ensures Split(s) != [] && JoinFields(Split(s)) == s
    decreases |s|
  {
    var n := IndexOf(s, ' ');
    if n < |s| {
      SplitJoins(s[n + 1..]);
      JoinCons(s[..n], Split(s[n + 1..]));
      CutAt(s, n);
    }
  }

  /** The requests as the protocol writes them. */
  lemma EncodedText(c: Command)
    requires IsValid(c)
    ensures c.operation == "stats" ==> Encode(c) == "stats" + "\r\n"
    ensures c.operation == "get" ==> Encode(c) == "get" + " " + c.key + "\r\n"
    ensures c.operation == "delete" ==> Encode(c) == "delete" + " " + c.key + "\r\n"
    ensures c.operation == "set" ==>
              Encode(c) == "set" + " " + (c.key + " " + (Decimal(c.flags) + " " + (Decimal(c.ttl) + " " + Decimal(|c.value|))))
                           + "\r\n" + (c.value + "\r\n")
  {
    if c.operation == "set" {
      FiveFields("set", c.key, Decimal(c.flags), Decimal(c.ttl), Decimal(|c.value|));
    } else if c.operation != "stats" {
      TwoFields(c.operation, c.key);
    }
  }

  lemma TwoFields(a: string, b: string)
    ensures JoinFields([a, b]) == a + " " + b
  {
    assert [a, b][1..] == [b];
  }

  lemma FiveFields(a: string, b: string, c: string, d: string, e: string)
    ensures JoinFields([a, b, c, d, e]) == a + " " + (b + " " + (c + " " + (d + " " + e)))
  {
    JoinCons(a, [b, c, d, e]);
    JoinCons(b, [c, d, e]);
    JoinCons(c, [d, e]);
    TwoFields(d, e);
    assert [a] + [b, c, d, e] == [a, b, c, d, e] && [b] + [c, d, e] == [b, c, d, e] && [c] + [d, e] == [c, d, e];
  }

  // ---- Reading a request back

  /** A line limit no encoded request reaches. */
  const MAX_LINE := 4096

  /** What a server reads: one line, its fields, and for set a value of the stated length. */
  function ReadRequest(s: string): Option<(Command, string)> {
    match ReadLine(s, MAX_LINE)
    case None => None
    case Some((line, rest)) =>
      var fields := Split(line);
      if fields == ["stats"] then Some((Command("stats", "", "", 0, 0), rest))
      else if |fields| == 2 && (fields[0] == "get" || fields[0] == "delete") then
        Some((Command(fields[0], fields[1], "", 0, 0), rest))
      else if |fields| == 5 && fields[0] == "set" then ReadSet(fields, rest)
      else None
  }

  function ReadSet(fields: seq<string>, rest: string): Option<(Command, string)>
    requires |fields| == 5
  {
    match (ParseUint(fields[2], MAX_UINT32), ParseUint(fields[3], MAX_UINT32), ParseUint(fields[4], MAX_VALUE))
    case (Some(flags), Some(ttl), Some(size)) =>
      if size + 2 <= |rest| && rest[size..size + 2] == "\r\n"
      then Some((Command("set", fields[1], rest[..size], flags, ttl), rest[size + 2..]))
      else None
    case _ => None
  }

  lemma KeyIsField(key: string)
    requires KeyOk(key)
    ensures IsField(key)
  {
  }

  lemma NumberIsField(n: nat)
    requires n <= MAX_UINT32
    ensures IsField(Decimal(n)) && |Decimal(n)| <= 10
    ensures forall limit :: n <= limit ==> ParseUint(Decimal(n), limit) == Some(n)
  {
    DecimalRoundTrip(n);
    assert Power10(10) == 10_000_000_000 by {
      assert Power10(5) == 100_000;
      assert Power10(10) == 10 * (10 * (10 * (10 * (10 * Power10(5)))));
    }
    DecimalLength(n, Power10(10), 10);
  }

  lemma RequestFieldsOk(c: Command)
    requires IsValid(c)
    ensures
      var fields := RequestFields(c);
      && 0 < |fields| <= 5
      && forall i :: 0 <= i < |fields| ==> IsField(fields[i]) && |fields[i]| <= 250
  {
    if c.operation != "stats" {
      KeyIsField(c.key);
    }
    if c.operation == "set" {
      NumberIsField(c.flags);
      NumberIsField(c.ttl);
      NumberIsField(|c.value|);
    }
  }

  lemma RequestLine(c: Command)
    requires IsValid(c)
    ensures
      var fields := RequestFields(c);
      && Split(JoinFields(fields)) == fields
      && '\n' !in JoinFields(fields) && |JoinFields(fields)| <= 5 * 251
  {
    RequestFieldsOk(c);
    JoinSplits(RequestFields(c));
    FieldBytesBounded(RequestFields(c), 250);
  }

  lemma {:induction false} FieldBytesBounded(fields: seq<string>, most: nat)
    requires forall i :: 0 <= i < |fields| ==> |fields[i]| <= most
    ensures FieldBytes(fields) <= |fields| * (most + 1)
  {
    if fields != [] {
      FieldBytesBounded(fields[1..], most);
      assert |fields| * (most + 1) == (|fields| - 1) * (most + 1) + most + 1;
    }
  }

  lemma SetRoundTrip(c: Command, rest: string)
    requires IsValid(c) && c.operation == "set"
    ensures ReadSet(RequestFields(c), c.value + "\r\n" + rest) == Some((c, rest))
  {
    var body := c.value + "\r\n" + rest;
    NumberIsField(c.flags);
    NumberIsField(c.ttl);
    NumberIsField(|c.value|);
    assert body[..|c.value|] == c.value && body[|c.value|..|c.value| + 2] == "\r\n" && body[|c.value| + 2..] == rest;
  }

  /** Every valid command, value included, is read back from its encoding, and nothing after it is touched. */
  lemma RequestRoundTrip(c: Command, rest: string)
    requires IsValid(c)
    ensures ReadRequest(Encode(c) + rest) == Some((c, rest))
  {
    var line := JoinFields(RequestFields(c));
    var body := (if c.operation == "set" then c.value + "\r\n" else "") + rest;
    RequestLine(c);
    ReadsLine(line, body, MAX_LINE);
    assert Encode(c) + rest == line + "\r\n" + body;
    if c.operation == "set" {
      SetRoundTrip(c, rest);
    } else {
      assert body == rest;
    }
  }

  /** So two commands, pipelined with anything behind them, never look alike. */
  lemma EncodingIsUnique(c: Command, d: Command, p: string, q: string)
    requires IsValid(c) && IsValid(d) && Encode(c) + p == Encode(d) + q
    ensures c == d && p == q
  {
    RequestRoundTrip(c, p);
    RequestRoundTrip(d, q);
  }

  // ---- Get responses

  datatype GetResult = Missing | Found(value: string, flags: nat) | Invalid | CutShort

  function ParseGet(key: string, s: string): GetResult {
    match ReadLine(s, READ_BUFFER)
    case None => Invalid
    case Some((line, rest)) => if line == "END" then Missing else ParseValue(key, Split(line), rest)
  }

  /** The fields of the VALUE line, then the value (`CutShort` when the stream ends in it), its terminator and the END line. */
  function ParseValue(key: string, parts: seq<string>, rest: string): GetResult {
    if |parts| != 4 || parts[0] != "VALUE" || parts[1] != key then Invalid
    else
      match (ParseUint(parts[2], MAX_UINT32), ParseUint(parts[3], MAX_UINT32))
      case (Some(flags), Some(size)) =>
        if size > MAX_VALUE then Invalid
        else if |rest| < size + 2 then CutShort
        else if rest[size..size + 2] != "\r\n" then Invalid
        else
          (match ReadLine(rest[size + 2..], READ_BUFFER)
           case Some((end, _)) => if end == "END" then Found(rest[..size], flags) else Invalid
           case None => Invalid)
      case _ => Invalid
  }

  function ValueLine(key: string, flags: string, size: string): string {
    JoinFields(["VALUE", key, flags, size])
  }

  function RenderGet(key: string, flags: nat, value: string): string {
    ValueLine(key, Decimal(flags), Decimal(|value|)) + "\r\n" + (value + "\r\n" + "END" + "\r\n")
  }

  lemma ValueBody(value: string, tail: string)
    ensures
      var body := value + "\r\n" + tail;
      body[..|value|] == value && body[|value|..|value| + 2] == "\r\n" && body[|value| + 2..] == tail
  {
  }

  /** What a value response is made of; the counts are kept as they are written. */
  datatype GetFrame = GetFrame(flags: string, size: string, value: string, rest: string)

  /** The response is a value of the key: its line, the value of the stated length, the END line, and anything after. */
  ghost predicate IsGetResponse(key: string, s: string, f: GetFrame) {
    var line := ValueLine(key, f.flags, f.size);
    && s == line + "\r\n" + (f.value + "\r\n" + ("END" + "\r\n" + f.rest))
    && |line| + 2 <= READ_BUFFER
    && ParseUint(f.flags, MAX_UINT32).Some? && ParseUint(f.size, MAX_UINT32) == Some(|f.value|) && |f.value| <= MAX_VALUE
  }

  /** A response is taken for a value only when it is one, and for that value. */
  lemma GetIsSound(key: string, s: string) returns (f: GetFrame)
    requires ParseGet(key, s).Found?
    ensures IsGetResponse(key, s, f) && ParseGet(key, s) == Found(f.value, ParseUint(f.flags, MAX_UINT32).value)
  {
    var (line, body) := ReadLine(s, READ_BUFFER).value;
    LineRead(s, READ_BUFFER);
    var parts := Split(line);
    SplitJoins(line);
    var rest := ValueIsSound(key, parts, body);
    assert parts == ["VALUE", key, parts[2], parts[3]];
    f := GetFrame(parts[2], parts[3], ParseGet(key, s).value, rest);
  }

  lemma DigitsAreField(s: string)
    requires ParseUint(s, MAX_UINT32).Some?
    ensures IsField(s)
  {
    assert forall i :: 0 <= i < |s| ==> IsDigit(s[i]);
  }

  lemma ValueLineSplits(key: string, flags: string, size: string)
    requires IsField(key) && IsField(flags) && IsField(size)
    ensures
      var line := ValueLine(key, flags, size);
      Split(line) == ["VALUE", key, flags, size] && '\n' !in line && line != "END"
  {
    var fields := ["VALUE", key, flags, size];
    assert IsField("VALUE");
    JoinSplits(fields);
    assert ValueLine(key, flags, size)[0] == 'V';
  }

  lemma ValueIsParsed(key: string, f: GetFrame)
    requires ParseUint(f.flags, MAX_UINT32).Some? && ParseUint(f.size, MAX_UINT32) == Some(|f.value|) && |f.value| <= MAX_VALUE
    ensures ParseValue(key, ["VALUE", key, f.flags, f.size], f.value + "\r\n" + ("END" + "\r\n" + f.rest)) ==
            Found(f.value, ParseUint(f.flags, MAX_UINT32).value)
  {
    ValueBody(f.value, "END" + "\r\n" + f.rest);
    ReadsLine("END", f.rest, READ_BUFFER);
  }

  lemma GetResponseIsParsed(key: string, s: string, f: GetFrame)
    requires KeyOk(key) && IsGetResponse(key, s, f)
    ensures ParseGet(key, s) == Found(f.value, ParseUint(f.flags, MAX_UINT32).value)
  {
    var line := ValueLine(key, f.flags, f.size);
    KeyIsField(key);
    DigitsAreField(f.flags);
    DigitsAreField(f.size);
    ValueLineSplits(key, f.flags, f.size);
    ReadsLine(line, f.value + "\r\n" + ("END" + "\r\n" + f.rest), READ_BUFFER);
    ValueIsParsed(key, f);
  }

  lemma ValueLineFits(key: string, flags: string, size: string)
    requires IsField(key) && IsField(flags) && IsField(size) && |key| <= 250 && |flags| <= 10 && |size| <= 10
    ensures |ValueLine(key, flags, size)| + 2 <= READ_BUFFER
  {
    var fields := ["VALUE", key, flags, size];
    assert IsField("VALUE");
    JoinSplits(fields);
    FieldBytesBounded(fields, 250);
  }

  /** Every value up to the limit comes back, even one that contains a whole END line. */
  lemma GetRoundTrip(key: string, flags: Uint32, value: string, rest: string)
    requires KeyOk(key) && |value| <= MAX_VALUE
    ensures ParseGet(key, RenderGet(key, flags, value) + rest) == Found(value, flags)
  {
    var f := GetFrame(Decimal(flags), Decimal(|value|), value, rest);
    NumberIsField(flags);
    NumberIsField(|value|);
    KeyIsField(key);
    ValueLineFits(key, f.flags, f.size);
    GetResponseIsParsed(key, RenderGet(key, flags, value) + rest, f);
  }

  /** So for the key of a valid command a response yields a value exactly when it is one. */
  lemma GetParsedExactly(key: string, s: string)
    requires KeyOk(key)
    ensures ParseGet(key, s).Found? <==> exists f :: IsGetResponse(key, s, f)
  {
    if ParseGet(key, s).Found? {
      var f := GetIsSound(key, s);
      assert IsGetResponse(key, s, f);
    } else if f :| IsGetResponse(key, s, f) {
      GetResponseIsParsed(key, s, f);
    }
  }

  lemma ValueIsSound(key: string, parts: seq<string>, body: string) returns (rest: string)
    requires ParseValue(key, parts, body).Found?
    ensures
      var r := ParseValue(key, parts, body);
      && |parts| == 4 && parts[0] == "VALUE" && parts[1] == key
      && body == r.value + "\r\n" + ("END" + "\r\n" + rest)
      && ParseUint(parts[2], MAX_UINT32) == Some(r.flags) && ParseUint(parts[3], MAX_UINT32) == Some(|r.value|)
      && |r.value| <= MAX_VALUE
  {
    var value := ParseValue(key, parts, body).value;
    var tail := body[|value| + 2..];
    LineRead(tail, READ_BUFFER);
    rest := ReadLine(tail, READ_BUFFER).value.1;
    assert body == value + body[|value|..|value| + 2] + tail;
  }

  /** The key is missing exactly when the response begins with the END line. */
  lemma GetMissingExactly(key: string, s: string)
    ensures ParseGet(key, s) == Missing <==> exists rest :: s == "END" + "\r\n" + rest
  {
    if ParseGet(key, s) == Missing {
      LineRead(s, READ_BUFFER);
      assert s == "END" + "\r\n" + ReadLine(s, READ_BUFFER).value.1;
    }
    if rest :| s == "END" + "\r\n" + rest {
      ReadsLine("END", rest, READ_BUFFER);
    }
  }

  /** A good value line whose value the stream does not hold to its end. */
  ghost predicate IsCutShort(key: string, s: string, flags: string, size: string, body: string) {
    && s == ValueLine(key, flags, size) + "\r\n" + body && |ValueLine(key, flags, size)| + 2 <= READ_BUFFER
    && ParseUint(flags, MAX_UINT32).Some?
    && ParseUint(size, MAX_UINT32).Some? && |body| < ParseUint(size, MAX_UINT32).value + 2 <= MAX_VALUE + 2
  }

  /** A value counts as cut short exactly then; any other response that is neither a value nor END is malformed. */
  lemma GetCutShortExactly(key: string, s: string)
    requires KeyOk(key)
    ensures ParseGet(key, s) == CutShort <==> exists flags, size, body :: IsCutShort(key, s, flags, size, body)
  {
    if ParseGet(key, s) == CutShort {
      var (line, body) := ReadLine(s, READ_BUFFER).value;
      LineRead(s, READ_BUFFER);
      SplitJoins(line);
      var parts := Split(line);
      assert parts == ["VALUE", key, parts[2], parts[3]];
      assert IsCutShort(key, s, parts[2], parts[3], body);
    }
    if flags, size, body :| IsCutShort(key, s, flags, size, body) {
      KeyIsField(key);
      DigitsAreField(flags);
      DigitsAreField(size);
      ValueLineSplits(key, flags, size);
      ReadsLine(ValueLine(key, flags, size), body, READ_BUFFER);
    }
  }

  // ---- Stats responses

  /** `strings.SplitN` into at most three parts. */
  function SplitThree(s: string): seq<string> {
    var n := IndexOf(s, ' ');
    if n == |s| then [s]
    else
      var rest := s[n + 1..];
      var m := IndexOf(rest, ' ');
      if m == |rest| then [s[..n], rest] else [s[..n], rest[..m], rest[m + 1..]]
  }

  type StatMap = map<string, string>

  datatype Stat = Stat(name: string, value: string)

  datatype StatsLine = End | Entry(st: Stat) | Malformed

  /** What a line of the response is. */
  function ParseStat(line: string): StatsLine {
    if line == "END" then End
    else
      var parts := SplitThree(line);
      if |parts| == 3 && parts[0] == "STAT" && parts[1] != "" then Entry(Stat(parts[1], parts[2])) else Malformed
  }

  /** The length of the pair's line. */
  function StatBytes(st: Stat): nat {
    |st.name| + |st.value| + 6
  }

  /** The pairs so far, and the length of their lines. */
  datatype Tally = Tally(stats: StatMap, total: nat)

  function AddStat(t: Tally, st: Stat): Option<Tally> {
    if |t.stats| >= MAX_STATS || t.total + StatBytes(st) > MAX_STATS_BYTES || st.name in t.stats then None
    else Some(Tally(t.stats[st.name := st.value], t.total + StatBytes(st)))
  }

  type LineParser = string -> StatsLine
  type LineReader = string -> Option<(string, string)>
  type Adder<!A> = (A, Stat) -> Option<A>

  /** The loop over the lines, whatever parses a line, reads the next one and adds a pair. */
  function StatsLoop<A>(parse: LineParser, read: LineReader, add: Adder<A>, line: string, s: string, acc: A): Option<A>
    decreases |s|
  {
    match parse(line)
    case End => Some(acc)
    case Malformed => None
    case Entry(st) =>
      (match (add(acc, st), read(s))
       case (Some(more), Some((next, rest))) =>
         if |rest| < |s| then StatsLoop(parse, read, add, next, rest, more) else None
       case _ => None)
  }

  function Parser(): LineParser {
    line => ParseStat(line)
  }

  function Reader(): LineReader {
    s => ReadLine(s, READ_BUFFER)
  }

  function StatAdder(): Adder<Tally> {
    (t, st) => AddStat(t, st)
  }

  function StatsFrom(line: string, s: string, t: Tally): Option<StatMap> {
    match StatsLoop(Parser(), Reader(), StatAdder(), line, s, t)
    case Some(final) => Some(final.stats)
    case None => None
  }

  function ParseStats(s: string): Option<StatMap> {
    match ReadLine(s, READ_BUFFER)
    case Some((line, rest)) => StatsFrom(line, rest, Tally(map[], 0))
    case None => None
  }

  /** What a line other than END adds. */
  function LineAdded(t: Tally, line: string): Option<Tally> {
    match ParseStat(line) case Entry(st) => AddStat(t, st) case _ => None
  }

  lemma EntryLength(line: string)
    requires ParseStat(line).Entry?
    ensures |line| == StatBytes(ParseStat(line).st)
  {
    ThreePartsJoined(line);
  }

  method AddLine(line: string, stats: StatMap, total: nat) returns (r: Option<Tally>)
    requires line != "END"
    ensures r == LineAdded(Tally(stats, total), line)
  {
    var sum := total + |line|;
    var parts := SplitThree(line);
    if |parts| != 3 || parts[0] != "STAT" || parts[1] == "" {
      return None;
    }
    EntryLength(line);
    if |stats| >= MAX_STATS || sum > MAX_STATS_BYTES || parts[1] in stats {
      return None;
    }
    r := Some(Tally(stats[parts[1] := parts[2]], sum));
  }

  /** One turn of the loop. */
  lemma StatsTurn(line: string, s: string, t: Tally)
    requires ParseStat(line) != End
    ensures StatsFrom(line, s, t) ==
            if LineAdded(t, line).None? || ReadLine(s, READ_BUFFER).None? then None
            else StatsFrom(ReadLine(s, READ_BUFFER).value.0, ReadLine(s, READ_BUFFER).value.1, LineAdded(t, line).value)
  {
    if ReadLine(s, READ_BUFFER).Some? {
      LineRead(s, READ_BUFFER);
    }
  }

  method ReadStats(s: string) returns (r: Option<StatMap>)
    ensures r == ParseStats(s)
  {
    var first := ReadLine(s, READ_BUFFER);
    if first.None? {
      return None;
    }
    var (line, rest) := first.value;
    var t := Tally(map[], 0);
    ghost var goal := ParseStats(s);
    while line != "END"
      invariant goal == StatsFrom(line, rest, t)
      decreases |rest|, line != "END"
    {
      StatsTurn(line, rest, t);
      var added := AddLine(line, t.stats, t.total);
      var next := ReadLine(rest, READ_BUFFER);
      if added.None? || next.None? {
        return None;
      }
      LineRead(rest, READ_BUFFER);
      t, line, rest := added.value, next.value.0, next.value.1;
    }
    r := Some(t.stats);
  }

  predicate StatOk(st: Stat) {
    && st.name != "" && ' ' !in st.name && '\n' !in st.name && '\n' !in st.value
    && StatBytes(st) + 2 <= READ_BUFFER
  }

  function StatLine(st: Stat): string {
    "STAT" + " " + (st.name + " " + st.value)
  }

  function RenderStats(list: seq<Stat>): string {
    if list == [] then "END" + "\r\n" else StatLine(list[0]) + "\r\n" + RenderStats(list[1..])
  }

  /** The listed pairs, on top of what is already there. */
  function PairsOf(list: seq<Stat>, stats: StatMap): StatMap {
    if list == [] then stats else PairsOf(list[1..], stats[list[0].name := list[0].value])
  }

  function TotalBytes(list: seq<Stat>): nat {
    if list == [] then 0 else StatBytes(list[0]) + TotalBytes(list[1..])
  }

  /** No name is listed twice, or was there before. */
  predicate NewNames(list: seq<Stat>, stats: StatMap) {
    && (forall i :: 0 <= i < |list| ==> list[i].name !in stats)
    && (forall i, j :: 0 <= i < j < |list| ==> list[i].name != list[j].name)
  }

  lemma NewNamesStep(list: seq<Stat>, stats: StatMap)
    requires list != []
    ensures NewNames(list, stats) <==>
            list[0].name !in stats && NewNames(list[1..], stats[list[0].name := list[0].value])
  {
    var rest, more := list[1..], stats[list[0].name := list[0].value];
    assert forall i :: 0 <= i < |rest| ==> rest[i] == list[i + 1];
    if NewNames(list, stats) {
      forall i | 0 <= i < |rest|
        ensures rest[i].name !in more
      {
        assert list[0].name != list[i + 1].name;
      }
    }
    if list[0].name !in stats && NewNames(rest, more) {
      forall i, j | 0 <= i < j < |list|
        ensures list[i].name != list[j].name
      {
        assert rest[j - 1].name !in more;
        if i > 0 {
          assert rest[i - 1].name != rest[j - 1].name;
        }
      }
      forall i | 0 <= i < |list|
        ensures list[i].name !in stats
      {
        if i > 0 {
          assert rest[i - 1].name !in more;
        }
      }
    }
  }

  /** The bounds on a response, given what was read before it. */
  predicate WithinBounds(list: seq<Stat>, stats: StatMap, total: nat) {
    list != [] ==> |stats| + |list| <= MAX_STATS && total + TotalBytes(list) <= MAX_STATS_BYTES
  }

  lemma BoundsStep(list: seq<Stat>, stats: StatMap, total: nat)
    requires list != [] && list[0].name !in stats
    requires |stats| < MAX_STATS && total + StatBytes(list[0]) <= MAX_STATS_BYTES
    ensures WithinBounds(list, stats, total) <==>
            WithinBounds(list[1..], stats[list[0].name := list[0].value], total + StatBytes(list[0]))
  {
    var more := stats[list[0].name := list[0].value];
    assert more.Keys == stats.Keys + {list[0].name};
    assert |more| == |more.Keys| == |stats.Keys| + 1 == |stats| + 1;
    assert TotalBytes(list) == StatBytes(list[0]) + TotalBytes(list[1..]);
    assert |list| == 1 ==> list[1..] == [];
  }

  // ---- Stats lines

  lemma CutJoined(x: string, y: string)
    requires ' ' !in x
    ensures
      var s := x + " " + y;
      IndexOf(s, ' ') == |x| < |s| && s[..|x|] == x && s[|x| + 1..] == y
  {
    var s := x + " " + y;
    assert s[|x|] == ' ' && forall i :: 0 <= i < |x| ==> s[i] == x[i];
    IndexIs(s, ' ', |x|);
  }

  lemma ThreePartsSplit(a: string, b: string, c: string)
    requires ' ' !in a && ' ' !in b
    ensures SplitThree(a + " " + (b + " " + c)) == [a, b, c]
  {
    CutJoined(a, b + " " + c);
    CutJoined(b, c);
  }

  lemma ThreePartsJoined(line: string)
    requires |SplitThree(line)| == 3
    ensures
      var parts := SplitThree(line);
      line == parts[0] + " " + (parts[1] + " " + parts[2]) && ' ' !in parts[1]
  {
    var n := IndexOf(line, ' ');
    var rest := line[n + 1..];
    CutAt(line, n);
    CutAt(rest, IndexOf(rest, ' '));
  }

  lemma LineWithoutNewline(st: Stat)
    requires '\n' !in st.name && '\n' !in st.value
    ensures '\n' !in StatLine(st) && StatLine(st)[0] == 'S'
  {
    var line := StatLine(st);
    forall i | 0 <= i < |line|
      ensures line[i] != '\n'
    {
      if i >= 6 + |st.name| {
        assert line[i] == st.value[i - 6 - |st.name|];
      } else if 5 <= i < 5 + |st.name| {
        assert line[i] == st.name[i - 5];
      }
    }
  }

  lemma StatLineParts(st: Stat)
    requires StatOk(st)
    ensures ParseStat(StatLine(st)) == Entry(st) && '\n' !in StatLine(st) && |StatLine(st)| + 2 <= READ_BUFFER
  {
    ThreePartsSplit("STAT", st.name, st.value);
    LineWithoutNewline(st);
  }

  /** A line of the right form and length is that of the pair it reads as. */
  lemma CarriedLine(line: string, st: Stat)
    requires ParseStat(line) == Entry(st) && '\n' !in line && |line| + 2 <= READ_BUFFER
    ensures line == StatLine(st) && StatOk(st)
  {
    ThreePartsJoined(line);
    NoneInParts("STAT" + " ", st.name, " ", st.value);
  }

  lemma NoneInParts(a: string, b: string, c: string, d: string)
    requires '\n' !in a + (b + c + d)
    ensures '\n' !in b && '\n' !in d
  {
    var s := a + (b + c + d);
    assert forall i :: 0 <= i < |b| ==> s[|a| + i] == b[i];
    assert forall i :: 0 <= i < |d| ==> s[|a| + |b| + |c| + i] == d[i];
  }

  // ---- Reading the list

  /** What adding the pairs one by one comes to. */
  function AddAll<A>(add: Adder<A>, list: seq<Stat>, acc: A): Option<A> {
    if list == [] then Some(acc)
    else match add(acc, list[0])
         case Some(more) => AddAll(add, list[1..], more)
         case None => None
  }

  lemma {:induction false} AddAllExact(list: seq<Stat>, t: Tally)
    ensures
      var all := AddAll(StatAdder(), list, t);
      && (all.Some? <==> NewNames(list, t.stats) && WithinBounds(list, t.stats, t.total))
      && (all.Some? ==> all.value.stats == PairsOf(list, t.stats))
    decreases |list|
  {
    if list != [] {
      NewNamesStep(list, t.stats);
      var more := AddStat(t, list[0]);
      if more.Some? {
        BoundsStep(list, t.stats, t.total);
        AddAllExact(list[1..], more.value);
      }
    }
  }

  /** The line, and what is read after it, are those of the list, ended by END. */
  predicate Chain(parse: LineParser, read: LineReader, list: seq<Stat>, line: string, s: string)
    decreases |list|
  {
    if list == [] then parse(line) == End
    else
      && parse(line) == Entry(list[0])
      && read(s).Some? && |read(s).value.1| < |s|
      && Chain(parse, read, list[1..], read(s).value.0, read(s).value.1)
  }

  lemma {:induction false} ChainIsRead<A>(
    parse: LineParser, read: LineReader, add: Adder<A>, list: seq<Stat>, line: string, s: string, acc: A)
    requires Chain(parse, read, list, line, s)
    ensures StatsLoop(parse, read, add, line, s, acc) == AddAll(add, list, acc)
    decreases |list|
  {
    if list != [] {
      var (next, after) := read(s).value;
      var more := add(acc, list[0]);
      if more.Some? {
        ChainIsRead(parse, read, add, list[1..], next, after, more.value);
      }
    }
  }

  function FirstLine(list: seq<Stat>): string {
    if list == [] then "END" else StatLine(list[0])
  }

  function AfterFirst(list: seq<Stat>, rest: string): string {
    if list == [] then rest else RenderStats(list[1..]) + rest
  }

  lemma RenderedCons(line: string, rendered: string, rest: string)
    ensures (line + "\r\n" + rendered) + rest == line + "\r\n" + (rendered + rest)
  {
  }

  lemma FirstOfRendered(list: seq<Stat>, rest: string)
    ensures RenderStats(list) + rest == FirstLine(list) + "\r\n" + AfterFirst(list, rest)
  {
    if list != [] {
      RenderedCons(StatLine(list[0]), RenderStats(list[1..]), rest);
    }
  }

  lemma ReadsFirst(list: seq<Stat>, rest: string)
    requires list != [] ==> StatOk(list[0])
    ensures ReadLine(RenderStats(list) + rest, READ_BUFFER) == Some((FirstLine(list), AfterFirst(list, rest)))
  {
    var line, after := FirstLine(list), AfterFirst(list, rest);
    FirstOfRendered(list, rest);
    assert '\n' !in line && |line| + 2 <= READ_BUFFER by {
      if list != [] {
        StatLineParts(list[0]);
      }
    }
    ReadsLine(line, after, READ_BUFFER);
  }

  lemma {:induction false} RenderedChain(list: seq<Stat>, rest: string)
    requires forall i :: 0 <= i < |list| ==> StatOk(list[i])
    ensures Chain(Parser(), Reader(), list, FirstLine(list), AfterFirst(list, rest))
    decreases |list|
  {
    if list != [] {
      StatLineParts(list[0]);
      ReadsFirst(list[1..], rest);
      LineRead(AfterFirst(list, rest), READ_BUFFER);
      RenderedChain(list[1..], rest);
    }
  }

  /**
   A rendered stats response parses to exactly the listed pairs when no name is
   repeated, there are at most 1024 of them and their lines hold at most 256 KiB;
   otherwise it is refused.
   */
  lemma StatsExact(list: seq<Stat>, rest: string)
    requires forall i :: 0 <= i < |list| ==> StatOk(list[i])
    ensures ParseStats(RenderStats(list) + rest) ==
            if NewNames(list, map[]) && |list| <= MAX_STATS && TotalBytes(list) <= MAX_STATS_BYTES
            then Some(PairsOf(list, map[])) else None
  {
    ReadsFirst(list, rest);
    RenderedChain(list, rest);
    ChainIsRead(Parser(), Reader(), StatAdder(), list, FirstLine(list), AfterFirst(list, rest), Tally(map[], 0));
    AddAllExact(list, Tally(map[], 0));
  }

  // ---- What a parsed response is

  lemma {:induction false} ParsedIsChain<A>(
    parse: LineParser, read: LineReader, add: Adder<A>, line: string, s: string, acc: A) returns (list: seq<Stat>)
    requires StatsLoop(parse, read, add, line, s, acc).Some?
    ensures Chain(parse, read, list, line, s)
    decreases |s|
  {
    if parse(line) == End {
      list := [];
    } else {
      var st := parse(line).st;
      var (next, after) := read(s).value;
      var more := ParsedIsChain(parse, read, add, next, after, add(acc, st).value);
      list := [st] + more;
      assert list[1..] == more;
    }
  }

  /** The text a chain is read from is the rendering of its list. */
  lemma {:induction false} ChainIsRendered(list: seq<Stat>, line: string, s: string) returns (rest: string)
    requires Chain(Parser(), Reader(), list, line, s) && '\n' !in line && |line| + 2 <= READ_BUFFER
    ensures line + "\r\n" + s == RenderStats(list) + rest
    ensures forall i :: 0 <= i < |list| ==> StatOk(list[i])
    decreases |list|
  {
    if list == [] {
      rest := s;
    } else {
      var (next, after) := ReadLine(s, READ_BUFFER).value;
      LineRead(s, READ_BUFFER);
      CarriedLine(line, list[0]);
      rest := ChainIsRendered(list[1..], next, after);
      RenderedCons(line, RenderStats(list[1..]), rest);
      forall i | 0 <= i < |list|
        ensures StatOk(list[i])
      {
        if i > 0 {
          assert StatOk(list[1..][i - 1]);
        }
      }
    }
  }

  /** The response is a list of STAT lines with new names and within the bounds, then END, and anything after. */
  ghost predicate IsStatsResponse(s: string, list: seq<Stat>, rest: string) {
    && s == RenderStats(list) + rest
    && (forall i :: 0 <= i < |list| ==> StatOk(list[i]))
    && NewNames(list, map[]) && |list| <= MAX_STATS && TotalBytes(list) <= MAX_STATS_BYTES
  }

  /** A response is parsed only when it is one, and to exactly its pairs. */
  lemma StatsIsSound(s: string) returns (list: seq<Stat>, rest: string)
    requires ParseStats(s).Some?
    ensures IsStatsResponse(s, list, rest) && ParseStats(s) == Some(PairsOf(list, map[]))
  {
    var (line, after) := ReadLine(s, READ_BUFFER).value;
    LineRead(s, READ_BUFFER);
    list := ParsedIsChain(Parser(), Reader(), StatAdder(), line, after, Tally(map[], 0));
    rest := ChainIsRendered(list, line, after);
    StatsExact(list, rest);
  }

  /** So a response is parsed exactly when it is one. */
  lemma StatsParsedExactly(s: string)
    ensures ParseStats(s).Some? <==> exists list, rest :: IsStatsResponse(s, list, rest)
  {
    if ParseStats(s).Some? {
      var list, rest := StatsIsSound(s);
      assert IsStatsResponse(s, list, rest);
    } else if list, rest :| IsStatsResponse(s, list, rest) {
      StatsExact(list, rest);
    }
  }

  function NamesOf(list: seq<Stat>): set<string> {
    set i | 0 <= i < |list| :: list[i].name
  }

  lemma NamesCons(st: Stat, rest: seq<Stat>)
    ensures NamesOf([st] + rest) == {st.name} + NamesOf(rest)
  {
    var list := [st] + rest;
    assert list[0] == st;
    forall i | 0 <= i < |rest|
      ensures rest[i].name in NamesOf(list)
    {
      assert list[i + 1] == rest[i];
    }
  }

  /** The parsed map holds every listed pair and nothing else. */
  lemma {:induction false} PairsAreListed(list: seq<Stat>, stats: StatMap)
    requires NewNames(list, stats)
    ensures PairsOf(list, stats).Keys == stats.Keys + NamesOf(list)
    ensures forall i :: 0 <= i < |list| ==> list[i].name in PairsOf(list, stats) && PairsOf(list, stats)[list[i].name] == list[i].value
    ensures forall k :: k in stats ==> k in PairsOf(list, stats) && PairsOf(list, stats)[k] == stats[k]
    decreases |list|
  {
    if list != [] {
      NewNamesStep(list, stats);
      var rest := list[1..];
      PairsAreListed(rest, stats[list[0].name := list[0].value]);
      assert list == [list[0]] + rest;
      NamesCons(list[0], rest);
      var all := PairsOf(list, stats);
      forall i | 0 <= i < |list|
        ensures list[i].name in all && all[list[i].name] == list[i].value
      {
        if i > 0 {
          assert rest[i - 1] == list[i];
        }
      }
    }
  }

  // ---- One operation

  datatype Reply = Got(result: GetResult) | Stats(pairs: Option<StatMap>) | Status(line: Option<string>)

  datatype Outcome = Replied(reply: Reply) | ErrInvalid | ErrWriteDenied

  predicate IsWrite(c: Command) {
    c.operation == "set" || c.operation == "delete"
  }

  /** The status line of a write, when it is one of those the operation may answer. */
  function ParseStatus(c: Command, s: string): Option<string> {
    match ReadLine(s, READ_BUFFER)
    case Some((line, _)) =>
      if (c.operation == "set" && line == "STORED")
         || (c.operation == "delete" && (line == "DELETED" || line == "NOT_FOUND"))
      then Some(line) else None
    case None => None
  }

  /** The answers a write may get, each a line of its own. */
  lemma StatusExactly(c: Command, s: string, line: string)
    ensures ParseStatus(c, s) == Some(line) <==>
            && ((c.operation == "set" && line == "STORED")
                || (c.operation == "delete" && (line == "DELETED" || line == "NOT_FOUND")))
            && exists rest :: s == line + "\r\n" + rest
  {
    if ParseStatus(c, s) == Some(line) {
      LineRead(s, READ_BUFFER);
      assert s == line + "\r\n" + ReadLine(s, READ_BUFFER).value.1;
    }
    if line == "STORED" || line == "DELETED" || line == "NOT_FOUND" {
      if rest :| s == line + "\r\n" + rest {
        ReadsLine(line, rest, READ_BUFFER);
      }
    }
  }

  /** Nothing is sent for an invalid command or a write that is not allowed. */
  method Execute(c: Command, allowWrite: bool, response: string) returns (sent: string, r: Outcome)
    ensures r == ErrInvalid <==> !IsValid(c)
    ensures r == ErrWriteDenied <==> IsValid(c) && (c.operation == "set" || c.operation == "delete") && !allowWrite
    ensures r.Replied? <==>
            sent == Encode(c) && IsValid(c) && (c.operation == "set" || c.operation == "delete" ==> allowWrite)
    ensures !r.Replied? ==> sent == ""
    ensures r.Replied? && c.operation == "get" ==> r.reply == Got(ParseGet(c.key, response))
    ensures r.Replied? && c.operation == "stats" ==> r.reply == Stats(ParseStats(response))
    ensures r.Replied? && IsWrite(c) ==> r.reply == Status(ParseStatus(c, response))
  {
    var ok := Validate(c);
    if !ok {
      return "", ErrInvalid;
    }
    if IsWrite(c) && !allowWrite {
      return "", ErrWriteDenied;
    }
    sent := Encode(c);
    match c.operation {
      case "get" => r := Replied(Got(ParseGet(c.key, response)));
      case "stats" =>
        var pairs := ReadStats(response);
        r := Replied(Stats(pairs));
      case _ => r := Replied(Status(ParseStatus(c, response)));
    }
  }
}
