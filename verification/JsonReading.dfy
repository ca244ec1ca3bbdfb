/** A reader of canonical JSON, written from the grammar of RFC 8259 and not from the writer: it takes one text for
    each tree, and gives the tree back. */
module JsonReading {
  import opened Ordering
  import opened Outcomes
  import opened Texts
  import opened CanonicalJson

  /** What was read, and what is left. */
  datatype Read<T> = Read(value: T, rest: string)

  // ----- strings (section 7) ------------------------------------------------------------------

  function HexDigit(c: char): Option<nat> {
    if '0' <= c <= '9' then Some(c as nat - '0' as nat)
    else if 'a' <= c <= 'f' then Some(c as nat - 'a' as nat + 10)
    else None
  }

  /** The two-character escapes. */
  function Short(c: char): Option<char> {
    match c
    case '\"' => Some('\"')
    case '\\' => Some('\\')
    case 'b' => Some(8 as char)
    case 'f' => Some(12 as char)
    case 'n' => Some(10 as char)
    case 'r' => Some(13 as char)
    case 't' => Some(9 as char)
    case _ => None
  }

  /** Control characters, the three that mean something to HTML and the two line separators are never written as they
      are. */
  predicate Bare(c: char) {
    c >= 32 as char && c != '\"' && c != '\\' && c != '<' && c != '>' && c != '&'
    && c != 0x2028 as char && c != 0x2029 as char
  }

  /** The six-character escape, for those that have no shorter one. */
  function Long(s: string): Option<char> {
    if |s| < 4 then None else
    match (HexDigit(s[0]), HexDigit(s[1]), HexDigit(s[2]), HexDigit(s[3]))
    case (Some(a), Some(b), Some(c), Some(d)) =>
      var n := 4096 * a + 256 * b + 16 * c + d;
      if 0xD800 <= n < 0xE000 || n >= 65536 then None else
      if Bare(n as char) || n in {8, 9, 10, 12, 13, 34, 92} then None else Some(n as char)
    case _ => None
  }

  function Prepend(c: char, r: Option<Read<string>>): (p: Option<Read<string>>)
    ensures p.Some? == r.Some? && (r.Some? ==> p.value.rest == r.value.rest)
  {
    if r.None? then None else Some(r.value.(value := [c] + r.value.value))
  }

  /** The rest of a string, after its opening quote. */
  function ReadString(s: string): (r: Option<Read<string>>)
    ensures r.Some? ==> |r.value.rest| < |s|
  {
    if s == "" then None
    else if s[0] == '\"' then Some(Read("", s[1..]))
    else if Bare(s[0]) then Prepend(s[0], ReadString(s[1..]))
    else if s[0] != '\\' || |s| < 2 then None
    else if s[1] == 'u' then
      match Long(s[2..])
      case None => None
      case Some(c) => Prepend(c, ReadString(s[6..]))
    else
      match Short(s[1])
      case None => None
      case Some(c) => Prepend(c, ReadString(s[2..]))
  }

  // ----- values -------------------------------------------------------------------------------

  /** How far a number goes. */
  function Digits(s: string): (n: nat)
    ensures n <= |s|
  {
    if s == "" || !(('0' <= s[0] <= '9') || s[0] in "+-.eE") then 0 else 1 + Digits(s[1..])
  }

  predicate IsToken(s: string) {
    s != "" && ('0' <= s[0] <= '9' || s[0] == '-') && (forall i | 0 <= i < |s| :: NumberChar(s[i]))
  }

  function ReadNumber(s: string): (r: Option<Read<Json>>)
    ensures r.Some? ==> |r.value.rest| < |s|
  {
    var n := Digits(s);
    if n == 0 || !(('0' <= s[0] <= '9') || s[0] == '-') then None
    else if IsToken(s[..n]) then Some(Read(Num(s[..n]), s[n..])) else None
  }

  /** One value. */
  function ReadValue(s: string): (r: Option<Read<Json>>)
    ensures r.Some? ==> |r.value.rest| < |s|
    decreases |s|, 0
  {
    if s == "" then None
    else if s[0] == '\"' then
      (match ReadString(s[1..]) case None => None case Some(t) => Some(Read(Str(t.value), t.rest)))
    else if s[0] == '[' then
      (match ReadItems(s[1..], true) case None => None case Some(t) => Some(Read(Arr(t.value), t.rest)))
    else if s[0] == '{' then
      (match ReadMembers(s[1..], None) case None => None case Some(t) => Some(Read(Obj(t.value), t.rest)))
    else if "null" <= s then Some(Read(Null, s[4..]))
    else if "true" <= s then Some(Read(Bool(true), s[4..]))
    else if "false" <= s then Some(Read(Bool(false), s[5..]))
    else ReadNumber(s)
  }

  /** The items of an array to its bracket, with a comma before each but the first. */
  function ReadItems(s: string, first: bool): (r: Option<Read<seq<Json>>>)
    ensures r.Some? ==> |r.value.rest| < |s|
    decreases |s|, 1
  {
    if s == "" then None
    else if s[0] == ']' then Some(Read([], s[1..]))
    else if !first && s[0] != ',' then None
    else
      match ReadValue(if first then s else s[1..])
      case None => None
      case Some(item) =>
        match ReadItems(item.rest, false)
        case None => None
        case Some(more) => Some(Read([item.value] + more.value, more.rest))
  }

  /** The comma, if there was a member before, the name and its colon. */
  function ReadName(s: string, last: Option<string>): (r: Option<Read<string>>)
    ensures r.Some? ==> |r.value.rest| < |s|
  {
    var t := if last.None? then s else if s != "" && s[0] == ',' then s[1..] else "";
    if t == "" || t[0] != '\"' then None else
    match ReadString(t[1..])
    case None => None
    case Some(name) =>
      if name.rest == "" || name.rest[0] != ':' || (last.Some? && !Lt(last.value, name.value)) then None
      else Some(Read(name.value, name.rest[1..]))
  }

  /** The members of an object to its brace, with a comma before each but the first, each under a greater name than the
      one before. */
  function ReadMembers(s: string, last: Option<string>): (r: Option<Read<map<string, Json>>>)
    ensures r.Some? ==> |r.value.rest| < |s|
    decreases |s|, 1
  {
    if s == "" then None
    else if s[0] == '}' then Some(Read(map[], s[1..]))
    else
      match ReadName(s, last)
      case None => None
      case Some(name) =>
        match ReadValue(name.rest)
        case None => None
        case Some(item) =>
          match ReadMembers(item.rest, Some(name.value))
          case None => None
          case Some(more) => Some(Read(more.value[name.value := item.value], more.rest))
  }

  // ----- it reads back what is written --------------------------------------------------------

  lemma HexDigitReads(n: nat)
    requires n < 16
    ensures HexDigit(Hex(n)) == Some(n)
  {
  }

  lemma NumberedAreLong(c: char)
    requires Letter(c) == 0 as char && Numbered(c)
    ensures var n := c as nat; n < 0xD800 && !Bare(c) && n !in {8, 9, 10, 12, 13, 34, 92}
  {
  }

  lemma LongReads(c: char, x: string)
    requires Letter(c) == 0 as char && Numbered(c)
    ensures var n := c as nat;
      Long([HexAt(n, 0), HexAt(n, 1), HexAt(n, 2), HexAt(n, 3)] + x) == Some(c)
  {
    var n := c as nat;
    NumberedAreLong(c);
    HexParts(n);
    HexDigitReads(Nibble(n, 0));
    HexDigitReads(Nibble(n, 1));
    HexDigitReads(Nibble(n, 2));
    HexDigitReads(Nibble(n, 3));
  }

  lemma ShortReads(c: char, x: string)
    requires Letter(c) != 0 as char
    ensures Short(Letter(c)) == Some(c) && Letter(c) != 'u'
    ensures ReadString(['\\', Letter(c)] + x) == Prepend(c, ReadString(x))
  {
    var s := ['\\', Letter(c)] + x;
    assert s[0] == '\\' && s[1] == Letter(c) && s[2..] == x;
  }

  lemma LongEscapeReads(c: char, hex: string, x: string)
    requires |hex| == 4 && Long(hex + x) == Some(c)
    ensures ReadString(['\\', 'u'] + hex + x) == Prepend(c, ReadString(x))
  {
    var s := ['\\', 'u'] + hex + x;
    assert s[0] == '\\' && s[1] == 'u' && s[2..] == hex + x && s[6..] == x;
  }

  lemma BareReads(c: char, x: string)
    requires Letter(c) == 0 as char && !Numbered(c)
    ensures ReadString([c] + x) == Prepend(c, ReadString(x))
  {
    assert ([c] + x)[0] == c && ([c] + x)[1..] == x;
  }

  lemma EscapeReads(c: char, x: string)
    ensures ReadString(Escape(c) + x) == Prepend(c, ReadString(x))
  {
    if Letter(c) != 0 as char {
      ShortReads(c, x);
    } else if Numbered(c) {
      var n := c as nat;
      var hex := [HexAt(n, 0), HexAt(n, 1), HexAt(n, 2), HexAt(n, 3)];
      LongReads(c, x);
      LongEscapeReads(c, hex, x);
      assert Escape(c) == ['\\', 'u'] + hex;
    } else {
      BareReads(c, x);
    }
  }

  lemma {:induction false} StringReads(t: string, x: string)
    ensures ReadString(Escaped(t) + x) == Some(Read(t, x))
  {
    EscapedOpens(t, x);
    if t == "" {
      assert (Escaped(t) + x)[1..] == x;
    } else {
      EscapeReads(t[0], Escaped(t[1..]) + x);
      StringReads(t[1..], x);
      assert t == [t[0]] + t[1..];
    }
  }

  lemma QuoteReads(t: string, x: string)
    ensures (Quote(t) + x)[0] == '\"' && (Quote(t) + x)[1..] == Escaped(t) + x
    ensures ReadString((Quote(t) + x)[1..]) == Some(Read(t, x))
  {
    Regroup("\"", Escaped(t), x);
    var rest := Escaped(t) + x;
    assert ("\"" + rest)[0] == '\"' && ("\"" + rest)[1..] == rest;
    StringReads(t, x);
  }

  lemma {:induction false} DigitsAre(token: string, x: string)
    requires (forall i | 0 <= i < |token| :: NumberChar(token[i])) && Ends(x)
    ensures Digits(token + x) == |token|
  {
    if token == "" {
      assert token + x == x;
    } else {
      assert (token + x)[1..] == token[1..] + x && (token + x)[0] == token[0];
      DigitsAre(token[1..], x);
    }
  }

  lemma NumberReads(token: Token, x: string)
    requires Ends(x)
    ensures ReadValue(token + x) == Some(Read(Num(token), x))
  {
    var s := token + x;
    assert s[0] == token[0] && s[..|token|] == token && s[|token|..] == x;
    DigitsAre(token, x);
    assert !("null" <= s) && !("true" <= s) && !("false" <= s) by {
      assert "null"[0] == 'n' && "true"[0] == 't' && "false"[0] == 'f';
    }
  }

  lemma WordReads(word: string, j: Json, x: string)
    requires word == "null" || word == "true" || word == "false"
    requires j == if word == "null" then Null else Bool(word == "true")
    ensures ReadValue(word + x) == Some(Read(j, x))
  {
    var s := word + x;
    assert word <= s && s[|word|..] == x && s[0] == word[0];
    assert "null"[0] == 'n' && "true"[0] == 't' && "false"[0] == 'f';
  }

  lemma ItemReads(first: bool, comma: string, value: string, item: Read<Json>, more: Read<seq<Json>>)
    requires comma == if first then "" else ","
    requires value != "" && value[0] != ']'
    requires ReadValue(value) == Some(item) && ReadItems(item.rest, false) == Some(more)
    ensures ReadItems(comma + value, first) == Some(Read([item.value] + more.value, more.rest))
  {
    var s := comma + value;
    if first {
      assert s == value;
    } else {
      assert s[0] == ',' && s[1..] == value;
    }
  }

  lemma ValueOpens(j: Json, x: string)
    ensures Text(j) + x != "" && (Text(j) + x)[0] != ']'
  {
    Opens(j);
    Head(Text(j), x);
  }

  lemma BracketReads(first: bool, x: string)
    ensures ReadItems("]" + x, first) == Some(Read([], x))
  {
    assert ("]" + x)[0] == ']' && ("]" + x)[1..] == x;
  }

  lemma NextItemReads(j: Json, i: nat, x: string)
    requires j.Arr? && i < |j.items| && Ends(x)
    requires ReadValue(Text(j.items[i]) + (ItemsFrom(j, i + 1) + x)) == Some(Read(j.items[i], ItemsFrom(j, i + 1) + x))
    requires ReadItems(ItemsFrom(j, i + 1) + x, false) == Some(Read(j.items[i + 1..], x))
    ensures ReadItems(ItemsFrom(j, i) + x, i == 0) == Some(Read(j.items[i..], x))
  {
    var rest := ItemsFrom(j, i + 1) + x;
    var comma, value := if i > 0 then "," else "", Text(j.items[i]) + rest;
    ItemsOpen(j, i, x);
    assert ItemsFrom(j, i) + x == comma + value;
    ValueOpens(j.items[i], rest);
    ItemReads(i == 0, comma, value, Read(j.items[i], rest), Read(j.items[i + 1..], x));
    assert j.items[i..] == [j.items[i]] + j.items[i + 1..];
  }

  /** The items of an array from one on, to the bracket. */
  lemma {:induction false} ItemsRead(j: Json, i: nat, x: string)
    requires j.Arr? && i <= |j.items| && Ends(x)
    ensures ReadItems(ItemsFrom(j, i) + x, i == 0) == Some(Read(j.items[i..], x))
    decreases j, 0, |j.items| - i
  {
    if i == |j.items| {
      BracketReads(i == 0, x);
      assert ItemsFrom(j, i) == "]" && j.items[i..] == [];
    } else {
      ItemsOpen(j, i, x);
      TextReads(j.items[i], ItemsFrom(j, i + 1) + x);
      ItemsRead(j, i + 1, x);
      NextItemReads(j, i, x);
    }
  }

  /** The members of an object under some of its names. */
  function Under(fields: map<string, Json>, keys: seq<string>): map<string, Json>
    requires forall k | k in keys :: k in fields
  {
    map k | k in keys :: fields[k]
  }

  lemma NameReads(name: string, last: Option<string>, x: string)
    requires last.Some? ==> Lt(last.value, name)
    ensures ReadName((if last.None? then "" else ",") + (Quote(name) + (":" + x)), last) == Some(Read(name, x))
  {
    var comma := if last.None? then "" else ",";
    var t := Quote(name) + (":" + x);
    var s := comma + t;
    QuoteReads(name, ":" + x);
    assert (if last.None? then s else s[1..]) == t && (last.Some? ==> s[0] == ',');
    assert (":" + x)[0] == ':' && (":" + x)[1..] == x;
  }

  lemma MemberReads(s: string, last: Option<string>, name: Read<string>, item: Read<Json>,
                    more: Read<map<string, Json>>)
    requires s != "" && s[0] != '}' && ReadName(s, last) == Some(name) && ReadValue(name.rest) == Some(item)
    requires ReadMembers(item.rest, Some(name.value)) == Some(more)
    ensures ReadMembers(s, last) == Some(Read(more.value[name.value := item.value], more.rest))
  {
  }

  lemma OneMoreUnder(fields: map<string, Json>, keys: seq<string>)
    requires keys != [] && forall k | k in keys :: k in fields
    ensures Under(fields, keys) == Under(fields, keys[1..])[keys[0] := fields[keys[0]]]
  {
  }

  lemma {:induction false} MembersRead(j: Json, keys: seq<string>, last: Option<string>, x: string)
    requires j.Obj? && (forall k | k in keys :: k in j.fields) && Ends(x)
    requires StrictlySorted(keys) && (last.Some? ==> forall k | k in keys :: Lt(last.value, k))
    ensures ReadMembers(MembersOf(j, keys, last.None?) + x, last) == Some(Read(Under(j.fields, keys), x))
    decreases j, 0, |keys|
  {
    MembersOpen(j, keys, last.None?, x);
    if keys == [] {
      assert ("}" + x)[0] == '}' && ("}" + x)[1..] == x;
    } else {
      var rest, value := MembersOf(j, keys[1..], false) + x, j.fields[keys[0]];
      NameReads(keys[0], last, Text(value) + rest);
      TextReads(value, rest);
      MembersRead(j, keys[1..], Some(keys[0]), x);
      MemberReads(MembersOf(j, keys, last.None?) + x, last, Read(keys[0], Text(value) + rest), Read(value, rest),
                  Read(Under(j.fields, keys[1..]), x));
      OneMoreUnder(j.fields, keys);
    }
  }

  lemma ArrayReads(j: Json, x: string)
    requires j.Arr? && Ends(x)
    ensures ReadValue(Text(j) + x) == Some(Read(j, x))
    decreases j, 0, |j.items| + 1
  {
    var rest := ItemsFrom(j, 0) + x;
    Regroup("[", ItemsFrom(j, 0), x);
    assert ("[" + rest)[0] == '[' && ("[" + rest)[1..] == rest;
    ItemsRead(j, 0, x);
    assert j.items[0..] == j.items;
  }

  lemma AllUnder(fields: map<string, Json>)
    ensures var keys := SortedKeys(fields.Keys);
      StrictlySorted(keys) && (forall k | k in keys :: k in fields) && Under(fields, keys) == fields
  {
    var keys := SortedKeys(fields.Keys);
    forall k ensures k in keys <==> k in fields { assert k in keys <==> k in Elements(keys); }
  }

  lemma BraceReads(rest: string, members: Read<map<string, Json>>)
    requires ReadMembers(rest, None) == Some(members)
    ensures ReadValue("{" + rest) == Some(Read(Obj(members.value), members.rest))
  {
    assert ("{" + rest)[0] == '{' && ("{" + rest)[1..] == rest;
  }

  lemma ObjectReads(j: Json, x: string)
    requires j.Obj? && Ends(x)
    ensures ReadValue(Text(j) + x) == Some(Read(j, x))
    decreases j, 0, |SortedKeys(j.fields.Keys)| + 1
  {
    var keys := SortedKeys(j.fields.Keys);
    AllUnder(j.fields);
    MembersRead(j, keys, None, x);
    Regroup("{", MembersOf(j, keys, true), x);
    BraceReads(MembersOf(j, keys, true) + x, Read(j.fields, x));
  }

  /** The text of a tree, whatever may follow a value following it, reads as the tree. */
  lemma {:induction false} TextReads(j: Json, x: string)
    requires Ends(x)
    ensures ReadValue(Text(j) + x) == Some(Read(j, x))
    decreases j, 1, 0
  {
    match j
    case Null => WordReads("null", j, x);
    case Bool(on) => WordReads(if on then "true" else "false", j, x);
    case Num(token) => NumberReads(token, x);
    case Str(text) => QuoteReads(text, x);
    case Arr(_) => ArrayReads(j, x);
    case Obj(_) => ObjectReads(j, x);
  }

  /** Reading undoes writing. */
  lemma ReadsBack(j: Json)
    ensures ReadValue(Text(j)) == Some(Read(j, ""))
  {
    TextReads(j, "");
    assert Text(j) + "" == Text(j);
  }

  // ----- and it takes nothing else ------------------------------------------------------------

  lemma BareIsItself(c: char)
    requires Bare(c)
    ensures Escape(c) == [c]
  {
  }

  lemma ShortIsLetter(c: char, e: char)
    requires Short(e) == Some(c)
    ensures Escape(c) == ['\\', e]
  {
  }

  lemma HexDigitIs(c: char, n: nat)
    requires HexDigit(c) == Some(n)
    ensures n < 16 && Hex(n) == c
  {
  }

  lemma By16(n: nat, q: nat, r: nat)
    requires r < 16 && n == 16 * q + r
    ensures n / 16 == q && n % 16 == r
  {
  }

  lemma Shifted(n: nat)
    ensures n / 256 == n / 16 / 16 && n / 4096 == n / 16 / 16 / 16
  {
  }

  lemma NibblesOf(n: nat, a: nat, b: nat, c: nat, d: nat)
    requires a < 16 && b < 16 && c < 16 && d < 16 && n == 4096 * a + 256 * b + 16 * c + d
    ensures Nibble(n, 0) == a && Nibble(n, 1) == b && Nibble(n, 2) == c && Nibble(n, 3) == d
  {
    By16(n, 256 * a + 16 * b + c, d);
    By16(256 * a + 16 * b + c, 16 * a + b, c);
    By16(16 * a + b, a, b);
    By16(a, 0, a);
    Shifted(n);
  }

  lemma LongIsNumbered(s: string, c: char)
    requires Long(s) == Some(c)
    ensures |s| >= 4 && Escape(c) == ['\\', 'u'] + s[..4]
  {
    var w, x, y, z := HexDigit(s[0]).value, HexDigit(s[1]).value, HexDigit(s[2]).value, HexDigit(s[3]).value;
    HexDigitIs(s[0], w);
    HexDigitIs(s[1], x);
    HexDigitIs(s[2], y);
    HexDigitIs(s[3], z);
    NibblesOf(c as nat, w, x, y, z);
    assert Letter(c) == 0 as char && Numbered(c);
  }

  /** How a string that goes on begins: with one character, escaped. */
  lemma StringBegins(s: string) returns (n: nat)
    requires ReadString(s).Some? && s[0] != '\"'
    ensures 0 < n <= |s| && ReadString(s[n..]).Some? && ReadString(s).value.value != []
    ensures s[..n] == Escape(ReadString(s).value.value[0])
    ensures ReadString(s[n..]).value == ReadString(s).value.(value := ReadString(s).value.value[1..])
  {
    if Bare(s[0]) {
      BareIsItself(s[0]);
      n := 1;
    } else if s[1] == 'u' {
      LongIsNumbered(s[2..], Long(s[2..]).value);
      n := 6;
      assert s[..6] == ['\\', 'u'] + s[2..][..4];
    } else {
      ShortIsLetter(Short(s[1]).value, s[1]);
      n := 2;
    }
  }

  lemma {:induction false} StringIs(s: string, t: string, rest: string)
    requires ReadString(s) == Some(Read(t, rest))
    ensures s == Escaped(t) + rest
    decreases |s|
  {
    if s[0] == '\"' {
      assert s == "\"" + s[1..];
    } else {
      var n := StringBegins(s);
      StringIs(s[n..], t[1..], rest);
      assert s == s[..n] + s[n..];
      EscapedOpens(t, rest);
    }
  }

  lemma NumberIs(s: string, r: Read<Json>)
    requires ReadNumber(s) == Some(r)
    ensures s == Text(r.value) + r.rest
  {
    assert s == s[..Digits(s)] + s[Digits(s)..];
  }

  lemma WordIs(s: string, r: Read<Json>)
    requires ReadValue(s) == Some(r) && s[0] != '\"' && s[0] != '[' && s[0] != '{'
    ensures s == Text(r.value) + r.rest
  {
    if "null" <= s {
      assert s == s[..4] + s[4..];
    } else if "true" <= s {
      assert s == s[..4] + s[4..];
    } else if "false" <= s {
      assert s == s[..5] + s[5..];
    } else {
      NumberIs(s, r);
    }
  }

  lemma ItemJoins(j: Json, i: nat, item: Read<Json>, rest: string, s: string, v: string)
    requires j.Arr? && i < |j.items| && j.items[i] == item.value && s == (if i > 0 then "," else "") + v
    requires v == Text(item.value) + item.rest && item.rest == ItemsFrom(j, i + 1) + rest
    ensures s == ItemsFrom(j, i) + rest
  {
    var comma := if i > 0 then "," else "";
    Regroup(comma, Text(item.value), item.rest);
    Regroup(comma + Text(item.value), ItemsFrom(j, i + 1), rest);
  }

  lemma {:induction false} ItemsAre(s: string, first: bool, items: seq<Json>, rest: string, j: Json, i: nat)
    requires ReadItems(s, first) == Some(Read(items, rest))
    requires j.Arr? && i <= |j.items| && j.items[i..] == items && first == (i == 0)
    ensures s == ItemsFrom(j, i) + rest
    decreases |s|, 1
  {
    if s[0] == ']' {
      assert s == "]" + s[1..];
    } else {
      var v := if first then s else s[1..];
      var item := ReadValue(v).value;
      var more := ReadItems(item.rest, false).value;
      assert items == [item.value] + more.value;
      assert j.items[i] == items[0] && j.items[i + 1..] == items[1..];
      ValueIs(v, item);
      ItemsAre(item.rest, false, more.value, rest, j, i + 1);
      assert s == (if i > 0 then "," else "") + v;
      ItemJoins(j, i, item, rest, s, v);
    }
  }

  lemma QuotedIs(t: string, r: Read<string>)
    requires t != "" && t[0] == '\"' && ReadString(t[1..]) == Some(r)
    ensures t == Quote(r.value) + r.rest
  {
    StringIs(t[1..], r.value, r.rest);
    assert t == "\"" + t[1..];
    Regroup("\"", Escaped(r.value), r.rest);
  }

  lemma ColonIs(t: string)
    requires t != "" && t[0] == ':'
    ensures t == ":" + t[1..]
  {
  }

  lemma NameIs(s: string, last: Option<string>, name: Read<string>)
    requires ReadName(s, last) == Some(name)
    ensures s == (if last.None? then "" else ",") + (Quote(name.value) + (":" + name.rest))
    ensures last.Some? ==> Lt(last.value, name.value)
  {
    var t := if last.None? then s else s[1..];
    var r := ReadString(t[1..]).value;
    QuotedIs(t, r);
    ColonIs(r.rest);
    assert s == (if last.None? then "" else ",") + t;
  }

  lemma LtTransitive(a: string, b: string, c: string)
    requires Lt(a, b) && Lt(b, c)
    ensures Lt(a, c)
  {
    LeTransitive(a, b, c);
    if a == c { LeAntisymmetric(a, b); }
  }

  /** The names read are in order, and those of the members. */
  ghost predicate InOrder(keys: seq<string>, last: Option<string>, m: map<string, Json>) {
    && StrictlySorted(keys) && (forall k :: k in keys <==> k in m)
    && (last.Some? ==> forall k | k in keys :: Lt(last.value, k))
  }

  lemma OneMoreInOrder(name: string, keys: seq<string>, last: Option<string>, m: map<string, Json>, item: Json)
    requires InOrder(keys, Some(name), m) && (last.Some? ==> Lt(last.value, name))
    ensures InOrder([name] + keys, last, m[name := item]) && name !in m
  {
    if last.Some? {
      forall k | k in keys ensures Lt(last.value, k) { LtTransitive(last.value, name, k); }
    }
    assert forall i | 0 <= i < |keys| :: keys[i] in keys;
  }

  lemma SortedKeysAre(keys: seq<string>, ks: set<string>)
    requires StrictlySorted(keys) && forall k :: k in keys <==> k in ks
    ensures keys == SortedKeys(ks)
  {
    assert Elements(keys) == ks;
    SortSorts(keys);
    SortedUnique(Sort(keys), keys);
    SortedKeysOf(keys);
  }

  lemma SameNames(a: seq<string>, b: seq<string>, last: string, m: map<string, Json>)
    requires InOrder(a, Some(last), m) && InOrder(b, Some(last), m)
    ensures a == b
  {
    SortedKeysAre(a, m.Keys);
    SortedKeysAre(b, m.Keys);
  }

  lemma {:induction false} MembersAre(s: string, last: Option<string>, m: map<string, Json>, rest: string, j: Json)
      returns (keys: seq<string>)
    requires ReadMembers(s, last) == Some(Read(m, rest)) && j.Obj?
    requires forall k | k in m :: k in j.fields && j.fields[k] == m[k]
    ensures InOrder(keys, last, m) && (forall k | k in keys :: k in j.fields)
    ensures s == MembersOf(j, keys, last.None?) + rest
    decreases |s|, 1
  {
    if s[0] == '}' {
      keys := [];
      assert s == "}" + s[1..];
    } else {
      var name := ReadName(s, last).value;
      var item := ReadValue(name.rest).value;
      var more := ReadMembers(item.rest, Some(name.value)).value;
      var inner := MembersAre(item.rest, Some(name.value), more.value, more.rest, Obj(more.value));
      OneMoreInOrder(name.value, inner, last, more.value, item.value);
      keys := [name.value] + inner;
      var again := MembersAre(item.rest, Some(name.value), more.value, more.rest, j);
      SameNames(inner, again, name.value, more.value);
      NameIs(s, last, name);
      ValueIs(name.rest, item);
      assert keys[1..] == inner;
      MembersOpen(j, keys, last.None?, rest);
    }
  }

  lemma TextIs(s: string, r: Read<Json>)
    requires ReadValue(s) == Some(r) && s[0] == '\"'
    ensures s == Text(r.value) + r.rest
  {
    QuotedIs(s, Read(r.value.text, r.rest));
  }

  lemma ArrayIs(s: string, r: Read<Json>)
    requires ReadValue(s) == Some(r) && s[0] == '['
    ensures s == Text(r.value) + r.rest
    decreases |s|, 0, 0
  {
    assert r.value.items[0..] == r.value.items;
    ItemsAre(s[1..], true, r.value.items, r.rest, r.value, 0);
    assert s == "[" + s[1..];
    Regroup("[", ItemsFrom(r.value, 0), r.rest);
  }

  lemma BraceIs(s: string, j: Json, keys: seq<string>, rest: string)
    requires j.Obj? && keys == SortedKeys(j.fields.Keys) && forall k | k in keys :: k in j.fields
    requires s != "" && s[0] == '{' && s[1..] == MembersOf(j, keys, true) + rest
    ensures s == Text(j) + rest
  {
    assert s == "{" + s[1..];
    Regroup("{", MembersOf(j, keys, true), rest);
  }

  lemma ObjectIs(s: string, r: Read<Json>)
    requires ReadValue(s) == Some(r) && s[0] == '{'
    ensures s == Text(r.value) + r.rest
    decreases |s|, 0, 0
  {
    var keys := MembersAre(s[1..], None, r.value.fields, r.rest, r.value);
    SortedKeysAre(keys, r.value.fields.Keys);
    BraceIs(s, r.value, keys, r.rest);
  }

  lemma {:induction false} ValueIs(s: string, r: Read<Json>)
    requires ReadValue(s) == Some(r)
    ensures s == Text(r.value) + r.rest
    decreases |s|, 0, 1
  {
    if s[0] == '\"' { TextIs(s, r); }
    else if s[0] == '[' { ArrayIs(s, r); }
    else if s[0] == '{' { ObjectIs(s, r); }
    else { WordIs(s, r); }
  }

  /** A text is read as a tree, with nothing left over, exactly when it is the tree's canonical text. */
  lemma ReadsExactly(s: string, j: Json)
    ensures ReadValue(s) == Some(Read(j, "")) <==> s == Text(j)
  {
    ReadsBack(j);
    if ReadValue(s) == Some(Read(j, "")) {
      ValueIs(s, Read(j, ""));
      assert Text(j) + "" == Text(j);
    }
  }
}
