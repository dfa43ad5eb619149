/** The depth scanner of internal/syncapi/protocol.go against the texts of RFC 8259. */
module JsonDepth {

  // ------------------------------------------------------------ JSON text

  /** One unit of a string, RFC 8259 section 7. */
  datatype Piece = Plain(c: char) | Escape(c: char) | Unicode(hex: string)

  /** A JSON text, RFC 8259 sections 2 to 7: spaces may surround every value, key and separator. */
  datatype Json =
    | Literal(text: string)
    | Text(pieces: seq<Piece>)
    | Array(items: Items)
    | Object(members: Members)
    | Padded(before: string, value: Json, after: string)

  datatype Items = NoItems(blank: string) | LastItem(item: Json) | MoreItems(first: Json, rest: Items)
  datatype Members =
    | NoMembers(blank: string)
    | LastMember(key: Key, member: Json)
    | MoreMembers(firstKey: Key, firstMember: Json, rest: Members)
  datatype Key = Key(before: string, pieces: seq<Piece>, after: string)

  predicate IsBlank(s: string) {
    forall i | 0 <= i < |s| :: s[i] in {' ', '\t', '\n', '\r'}
  }

  /** Numbers and the names true, false and null are made of these. */
  predicate IsLiteralText(s: string) {
    forall i | 0 <= i < |s| :: 'a' <= s[i] <= 'z' || '0' <= s[i] <= '9' || s[i] in {'E', '+', '-', '.'}
  }

  predicate ValidPiece(p: Piece) {
    match p
    case Plain(c) => c != '"' && c != '\\' && c as int >= 0x20
    case Escape(c) => c in {'"', '\\', '/', 'b', 'f', 'n', 'r', 't'}
    case Unicode(hex) =>
      |hex| == 4 && forall i | 0 <= i < 4 :: '0' <= hex[i] <= '9' || 'a' <= hex[i] <= 'f' || 'A' <= hex[i] <= 'F'
  }

  predicate ValidPieces(pieces: seq<Piece>) {
    forall i | 0 <= i < |pieces| :: ValidPiece(pieces[i])
  }

  predicate ValidJson(v: Json) {
    match v
    case Literal(text) => IsLiteralText(text)
    case Text(pieces) => ValidPieces(pieces)
    case Array(items) => ValidItems(items)
    case Object(members) => ValidMembers(members)
    case Padded(before, value, after) => IsBlank(before) && ValidJson(value) && IsBlank(after)
  }

  predicate ValidItems(items: Items) {
    match items
    case NoItems(blank) => IsBlank(blank)
    case LastItem(item) => ValidJson(item)
    case MoreItems(first, rest) => ValidJson(first) && ValidItems(rest) && !rest.NoItems?
  }

  predicate ValidKey(key: Key) {
    IsBlank(key.before) && ValidPieces(key.pieces) && IsBlank(key.after)
  }

  predicate ValidMembers(members: Members) {
    match members
    case NoMembers(blank) => IsBlank(blank)
    case LastMember(key, member) => ValidKey(key) && ValidJson(member)
    case MoreMembers(key, member, rest) => ValidKey(key) && ValidJson(member) && ValidMembers(rest) && !rest.NoMembers?
  }

  // -------------------------------------------------------------- printing

  function PrintPiece(p: Piece): string {
    match p
    case Plain(c) => [c]
    case Escape(c) => ['\\', c]
    case Unicode(hex) => ['\\', 'u'] + hex
  }

  function PrintPieces(pieces: seq<Piece>): string {
    if pieces == [] then "" else PrintPiece(pieces[0]) + PrintPieces(pieces[1..])
  }

  function PrintString(pieces: seq<Piece>): string {
    ['"'] + PrintPieces(pieces) + ['"']
  }

  function Print(v: Json): string {
    match v
    case Literal(text) => text
    case Text(pieces) => PrintString(pieces)
    case Array(items) => "[" + PrintItems(items) + "]"
    case Object(members) => "{" + PrintMembers(members) + "}"
    case Padded(before, value, after) => before + Print(value) + after
  }

  function PrintItems(items: Items): string {
    match items
    case NoItems(blank) => blank
    case LastItem(item) => Print(item)
    case MoreItems(first, rest) => Print(first) + "," + PrintItems(rest)
  }

  function PrintKey(key: Key): string {
    key.before + PrintString(key.pieces) + key.after + ":"
  }

  function PrintMembers(members: Members): string {
    match members
    case NoMembers(blank) => blank
    case LastMember(key, member) => PrintKey(key) + Print(member)
    case MoreMembers(key, member, rest) => PrintKey(key) + Print(member) + "," + PrintMembers(rest)
  }

  // ----------------------------------------------------------------- depth

  function Max(a: int, b: int): int {
    if a < b then b else a
  }

  /** How deep arrays and objects nest. */
  function Depth(v: Json): (d: nat) {
    match v
    case Literal(_) => 0
    case Text(_) => 0
    case Array(items) => 1 + ItemsDepth(items)
    case Object(members) => 1 + MembersDepth(members)
    case Padded(_, value, _) => Depth(value)
  }

  function ItemsDepth(items: Items): nat {
    match items
    case NoItems(_) => 0
    case LastItem(item) => Depth(item)
    case MoreItems(first, rest) => Max(Depth(first), ItemsDepth(rest))
  }

  function MembersDepth(members: Members): nat {
    match members
    case NoMembers(_) => 0
    case LastMember(_, member) => Depth(member)
    case MoreMembers(_, member, rest) => Max(Depth(member), MembersDepth(rest))
  }

  // --------------------------------------------------------------- scanner

  datatype Scanner = Scanner(depth: int, maxDepth: int, inString: bool, escaped: bool)

  const START := Scanner(0, 0, false, false)

  function ScanByte(s: Scanner, b: char): Scanner {
    if s.inString then
      if s.escaped then s.(escaped := false)
      else if b == '\\' then s.(escaped := true)
      else if b == '"' then s.(inString := false)
      else s
    else if b == '"' then s.(inString := true)
    else if b == '{' || b == '[' then s.(depth := s.depth + 1, maxDepth := Max(s.maxDepth, s.depth + 1))
    else if b == '}' || b == ']' then s.(depth := s.depth - 1)
    else s
  }

  function Scan(s: Scanner, body: string): Scanner
    decreases |body|
  {
    if body == "" then s else Scan(ScanByte(s, body[0]), body[1..])
  }

  lemma {:induction false} ScanConcat(s: Scanner, a: string, b: string)
    ensures Scan(s, a + b) == Scan(Scan(s, a), b)
    decreases |a|
  {
    if a == "" {
      assert a + b == b;
    } else {
      assert (a + b)[0] == a[0] && (a + b)[1..] == a[1..] + b;
      ScanConcat(ScanByte(s, a[0]), a[1..], b);
    }
  }

  lemma ScanOne(s: Scanner, c: char)
    ensures Scan(s, [c]) == ScanByte(s, c)
  {
    assert [c][1..] == "";
  }

  predicate Quiet(s: Scanner) {
    !s.inString && !s.escaped
  }

  /** Text without quotes and brackets leaves a scanner outside strings alone. */
  lemma {:induction false} ScanNeutral(s: Scanner, text: string)
    requires Quiet(s)
    requires forall i | 0 <= i < |text| :: text[i] !in {'"', '{', '[', '}', ']'}
    ensures Scan(s, text) == s
    decreases |text|
  {
    if text != "" {
      ScanNeutral(s, text[1..]);
    }
  }

  lemma ScanPiece(s: Scanner, p: Piece)
    requires s.inString && !s.escaped && ValidPiece(p)
    ensures Scan(s, PrintPiece(p)) == s
  {
    match p
    case Plain(c) => ScanOne(s, c);
    case Escape(c) =>
      ScanConcat(s, ['\\'], [c]);
      assert ['\\', c] == ['\\'] + [c];
      ScanOne(s, '\\');
      ScanOne(s.(escaped := true), c);
    case Unicode(hex) =>
      var t := ['\\', 'u'] + hex;
      assert t[1..][1..] == hex;
      ScanHex(s, hex);
  }

  lemma {:induction false} ScanHex(s: Scanner, hex: string)
    requires s.inString && !s.escaped && forall i | 0 <= i < |hex| :: hex[i] != '"' && hex[i] != '\\'
    ensures Scan(s, hex) == s
    decreases |hex|
  {
    if hex != "" {
      ScanHex(s, hex[1..]);
    }
  }

  lemma {:induction false} ScanPieces(s: Scanner, pieces: seq<Piece>)
    requires s.inString && !s.escaped && ValidPieces(pieces)
    ensures Scan(s, PrintPieces(pieces)) == s
    decreases |pieces|
  {
    if pieces != [] {
      ScanPiece(s, pieces[0]);
      ScanPieces(s, pieces[1..]);
      ScanConcat(s, PrintPiece(pieces[0]), PrintPieces(pieces[1..]));
    }
  }

  /** Whatever a string contains, the scanner comes out of it as it went in. */
  lemma ScanString(s: Scanner, pieces: seq<Piece>)
    requires Quiet(s) && ValidPieces(pieces)
    ensures Scan(s, PrintString(pieces)) == s
  {
    var inside := s.(inString := true);
    ScanConcat(s, ['"'] + PrintPieces(pieces), ['"']);
    ScanConcat(s, ['"'], PrintPieces(pieces));
    ScanOne(s, '"');
    ScanPieces(inside, pieces);
    ScanOne(inside, '"');
  }

  function Raised(s: Scanner, levels: nat): Scanner {
    s.(maxDepth := Max(s.maxDepth, s.depth + levels))
  }

  lemma {:induction false} ScanValue(s: Scanner, v: Json)
    requires Quiet(s) && ValidJson(v) && s.depth <= s.maxDepth
    ensures Scan(s, Print(v)) == Raised(s, Depth(v))
    decreases v
  {
    match v
    case Literal(text) => ScanNeutral(s, text);
    case Text(pieces) => ScanString(s, pieces);
    case Array(items) =>
      var inside := ScanByte(s, '[');
      ScanConcat(s, "[" + PrintItems(items), "]");
      ScanConcat(s, "[", PrintItems(items));
      ScanOne(s, '[');
      ScanItems(inside, items);
      ScanOne(Raised(inside, ItemsDepth(items)), ']');
    case Object(members) =>
      var inside := ScanByte(s, '{');
      ScanConcat(s, "{" + PrintMembers(members), "}");
      ScanConcat(s, "{", PrintMembers(members));
      ScanOne(s, '{');
      ScanMembers(inside, members);
      ScanOne(Raised(inside, MembersDepth(members)), '}');
    case Padded(before, value, after) =>
      ScanConcat(s, before + Print(value), after);
      ScanConcat(s, before, Print(value));
      ScanNeutral(s, before);
      ScanValue(s, value);
      ScanNeutral(Raised(s, Depth(value)), after);
  }

  lemma {:induction false} ScanItems(s: Scanner, items: Items)
    requires Quiet(s) && ValidItems(items) && s.depth <= s.maxDepth
    ensures Scan(s, PrintItems(items)) == Raised(s, ItemsDepth(items))
    decreases items
  {
    match items
    case NoItems(blank) => ScanNeutral(s, blank);
    case LastItem(item) => ScanValue(s, item);
    case MoreItems(first, rest) =>
      var after := Raised(s, Depth(first));
      ScanConcat(s, Print(first) + ",", PrintItems(rest));
      ScanConcat(s, Print(first), ",");
      ScanValue(s, first);
      ScanOne(after, ',');
      ScanItems(after, rest);
  }

  lemma ScanKey(s: Scanner, key: Key)
    requires Quiet(s) && ValidKey(key)
    ensures Scan(s, PrintKey(key)) == s
  {
    ScanConcat(s, key.before + PrintString(key.pieces) + key.after, ":");
    ScanConcat(s, key.before + PrintString(key.pieces), key.after);
    ScanConcat(s, key.before, PrintString(key.pieces));
    ScanNeutral(s, key.before);
    ScanString(s, key.pieces);
    ScanNeutral(s, key.after);
    ScanOne(s, ':');
  }

  lemma {:induction false} ScanMembers(s: Scanner, members: Members)
    requires Quiet(s) && ValidMembers(members) && s.depth <= s.maxDepth
    ensures Scan(s, PrintMembers(members)) == Raised(s, MembersDepth(members))
    decreases members
  {
    match members
    case NoMembers(blank) => ScanNeutral(s, blank);
    case LastMember(key, member) =>
      ScanConcat(s, PrintKey(key), Print(member));
      ScanKey(s, key);
      ScanValue(s, member);
    case MoreMembers(key, member, rest) =>
      var after := Raised(s, Depth(member));
      ScanConcat(s, PrintKey(key) + Print(member) + ",", PrintMembers(rest));
      ScanConcat(s, PrintKey(key) + Print(member), ",");
      ScanConcat(s, PrintKey(key), Print(member));
      ScanKey(s, key);
      ScanValue(s, member);
      ScanOne(after, ',');
      ScanMembers(after, rest);
  }

  /** jsonDepth: one pass over the bytes. */
  method Measure(body: string) returns (maxDepth: int)
    ensures maxDepth == Scan(START, body).maxDepth
    ensures forall v | ValidJson(v) && Print(v) == body :: maxDepth == Depth(v)
  {
    var depth := 0;
    maxDepth := 0;
    var inString, escaped := false, false;
    var i := 0;
    while i < |body|
      invariant 0 <= i <= |body|
      invariant Scan(Scanner(depth, maxDepth, inString, escaped), body[i..]) == Scan(START, body)
    {
      var b := body[i];
      assert body[i..][0] == b && body[i..][1..] == body[i + 1..];
      i := i + 1;
      if inString {
        if escaped {
          escaped := false;
        } else if b == '\\' {
          escaped := true;
        } else if b == '"' {
          inString := false;
        }
        continue;
      }
      if b == '"' {
        inString := true;
      } else if b == '{' || b == '[' {
        depth := depth + 1;
        if depth > maxDepth {
          maxDepth := depth;
        }
      } else if b == '}' || b == ']' {
        depth := depth - 1;
      }
    }
    forall v | ValidJson(v) && Print(v) == body ensures maxDepth == Depth(v) {
      ScanValue(START, v);
    }
  }
}
