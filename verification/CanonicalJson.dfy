/** The canonical JSON that row ids are hashed from: keys sorted at every level, arrays in order. */
module CanonicalJson {
  import opened Ordering
  import opened Texts

  predicate NumberChar(c: char) { '0' <= c <= '9' || c in "+-.eE" }

  /** A number as it is written: never empty, and opening with a digit or a minus. */
  type Token = s: string |
    s != "" && ('0' <= s[0] <= '9' || s[0] == '-') && (forall i | 0 <= i < |s| :: NumberChar(s[i]))
    witness "0"

  datatype Json =
    | Null
    | Bool(on: bool)
    | Num(token: Token)
    | Str(text: string)
    | Arr(items: seq<Json>)
    | Obj(fields: map<string, Json>)

  function Hex(n: nat): char
    requires n < 16
  {
    if n < 10 then '0' + n as char else 'a' + (n - 10) as char
  }

  /** The `i`th of four hexadecimal digits. */
  function Nibble(n: nat, i: nat): nat {
    (if i == 0 then n / 4096 else if i == 1 then n / 256 else if i == 2 then n / 16 else n) % 16
  }

  function HexAt(n: nat, i: nat): char { Hex(Nibble(n, i)) }

  /** The escapes that have a letter of their own; 0 for none. */
  function Letter(c: char): char {
    if c == '\"' then '\"'
    else if c == '\\' then '\\'
    else if c == 8 as char then 'b'
    else if c == 12 as char then 'f'
    else if c == '\n' then 'n'
    else if c == '\r' then 'r'
    else if c == '\t' then 't'
    else 0 as char
  }

  predicate Numbered(c: char) {
    c < 32 as char || c in "<>&" || c == 0x2028 as char || c == 0x2029 as char
  }

  /** One character of a string, as `json.Marshal` writes it. */
  function Escape(c: char): string {
    if Letter(c) != 0 as char then ['\\', Letter(c)]
    else if Numbered(c) then
      var n := c as nat;
      ['\\', 'u', HexAt(n, 0), HexAt(n, 1), HexAt(n, 2), HexAt(n, 3)]
    else [c]
  }

  function Escaped(s: string): string {
    if s == "" then "\"" else Escape(s[0]) + Escaped(s[1..])
  }

  function Quote(s: string): string { "\"" + Escaped(s) }

  /** The canonical text. */
  ghost function Text(j: Json): string
    decreases j, 1, 0
  {
    match j
    case Null => "null"
    case Bool(on) => if on then "true" else "false"
    case Num(token) => token
    case Str(text) => Quote(text)
    case Arr(items) => "[" + ItemsFrom(j, 0)
    case Obj(fields) => "{" + MembersOf(j, SortedKeys(fields.Keys), true)
  }

  /** The items of an array from the `i`th on, to its closing bracket. */
  ghost function ItemsFrom(j: Json, i: nat): string
    requires j.Arr? && i <= |j.items|
    decreases j, 0, |j.items| - i
  {
    if i == |j.items| then "]"
    else (if i > 0 then "," else "") + Text(j.items[i]) + ItemsFrom(j, i + 1)
  }

  /** The members of an object under `keys`, to its closing brace. */
  ghost function MembersOf(j: Json, keys: seq<string>, first: bool): string
    requires j.Obj? && forall k | k in keys :: k in j.fields
    decreases j, 0, |keys|
  {
    if keys == [] then "}"
    else (if first then "" else ",") + Quote(keys[0]) + ":" + Text(j.fields[keys[0]]) + MembersOf(j, keys[1..], false)
  }

  // ----- the text can be read back ------------------------------------------------------------

  /** What may follow a value. */
  predicate Ends(x: string) { x == "" || x[0] in ",]}" }

  lemma HexParts(n: nat)
    requires n < 65536
    ensures n == 4096 * (n / 4096 % 16) + 256 * (n / 256 % 16) + 16 * (n / 16 % 16) + n % 16
  {
  }

  lemma HexInjective(m: nat, n: nat)
    requires m < 16 && n < 16 && Hex(m) == Hex(n)
    ensures m == n
  {
  }

  /** The four digits of a numbered escape say which character it was. */
  lemma NumberedSplits(m: nat, n: nat)
    requires m < 65536 && n < 65536
    requires HexAt(m, 0) == HexAt(n, 0) && HexAt(m, 1) == HexAt(n, 1)
    requires HexAt(m, 2) == HexAt(n, 2) && HexAt(m, 3) == HexAt(n, 3)
    ensures m == n
  {
    HexParts(m);
    HexParts(n);
    HexInjective(Nibble(m, 0), Nibble(n, 0));
    HexInjective(Nibble(m, 1), Nibble(n, 1));
    HexInjective(Nibble(m, 2), Nibble(n, 2));
    HexInjective(Nibble(m, 3), Nibble(n, 3));
  }

  lemma EscapeSplits(c: char, d: char, x: string, y: string)
    requires Escape(c) + x == Escape(d) + y
    ensures c == d && x == y
  {
    var ec, ed := Escape(c), Escape(d);
    assert (ec + x)[0] == ec[0] && (ed + y)[0] == ed[0];
    if |ec| > 1 { assert (ec + x)[1] == ec[1] && (ed + y)[1] == ed[1]; }
    SameLength(ec, ed, x, y);
    if Letter(c) == 0 as char && Numbered(c) {
      assert ec[2] == ed[2] && ec[3] == ed[3] && ec[4] == ed[4] && ec[5] == ed[5];
      NumberedSplits(c as nat, d as nat);
    }
  }

  /** How a string goes on: with a quote at its end, never before. */
  lemma EscapedOpens(s: string, x: string)
    ensures (Escaped(s) + x)[0] == '\"' <==> s == ""
    ensures s != "" ==> Escaped(s) + x == Escape(s[0]) + (Escaped(s[1..]) + x)
  {
  }

  /** A string literal says where it ends. */
  lemma {:induction false} EscapedSplits(s: string, t: string, x: string, y: string)
    requires Escaped(s) + x == Escaped(t) + y
    ensures s == t && x == y
  {
    EscapedOpens(s, x);
    EscapedOpens(t, y);
    if s == "" {
      Prefixed("\"", x, y);
    } else {
      EscapeSplits(s[0], t[0], Escaped(s[1..]) + x, Escaped(t[1..]) + y);
      EscapedSplits(s[1..], t[1..], x, y);
      assert s == [s[0]] + s[1..] && t == [t[0]] + t[1..];
    }
  }

  lemma QuoteSplits(s: string, t: string, x: string, y: string)
    requires Quote(s) + x == Quote(t) + y
    ensures s == t && x == y
  {
    assert (Quote(s) + x)[1..] == Escaped(s) + x;
    assert (Quote(t) + y)[1..] == Escaped(t) + y;
    EscapedSplits(s, t, x, y);
  }

  /** A number ends where no character of a number can follow. */
  lemma TokenSplits(s: Token, t: Token, x: string, y: string)
    requires Ends(x) && Ends(y) && s + x == t + y
    ensures s == t && x == y
  {
    var all := s + x;
    assert (forall i | 0 <= i < |s| :: NumberChar(all[i])) && (x != "" ==> all[|s|] == x[0] && !NumberChar(x[0]));
    assert (forall i | 0 <= i < |t| :: NumberChar(all[i])) && (y != "" ==> all[|t|] == y[0] && !NumberChar(y[0]));
    SameLength(s, t, x, y);
  }

  lemma Opens(j: Json)
    ensures Text(j) != ""
    ensures var c := Text(j)[0];
      && (j.Null? <==> c == 'n') && (j.Bool? <==> c == 't' || c == 'f') && (j.Num? <==> c == '-' || '0' <= c <= '9')
      && (j.Str? <==> c == '\"') && (j.Arr? <==> c == '[') && (j.Obj? <==> c == '{')
      && c !in ",]}"
  {
  }

  /** What is left of an array is a comma and a value, then what is left after it; or the bracket. */
  lemma ItemsOpen(j: Json, i: nat, x: string)
    requires j.Arr? && i <= |j.items|
    ensures var text := ItemsFrom(j, i) + x;
      && Ends(ItemsFrom(j, i + if i < |j.items| then 1 else 0) + x)
      && (i == |j.items| ==> text == "]" + x)
      && (i < |j.items| ==>
            && text[0] != ']'
            && text == (if i > 0 then "," else "") + (Text(j.items[i]) + (ItemsFrom(j, i + 1) + x)))
  {
  }

  lemma {:induction false} ItemsSplit(a: Json, b: Json, i: nat, x: string, y: string)
    requires a.Arr? && b.Arr? && i <= |a.items| && i <= |b.items| && Ends(x) && Ends(y)
    requires ItemsFrom(a, i) + x == ItemsFrom(b, i) + y
    ensures a.items[i..] == b.items[i..] && x == y
    decreases a, 0, |a.items| - i
  {
    ItemsOpen(a, i, x);
    ItemsOpen(b, i, y);
    if i == |a.items| {
      Prefixed("]", x, y);
    } else {
      var ra, rb := ItemsFrom(a, i + 1) + x, ItemsFrom(b, i + 1) + y;
      Prefixed(if i > 0 then "," else "", Text(a.items[i]) + ra, Text(b.items[i]) + rb);
      TextSplits(a.items[i], b.items[i], ra, rb);
      ItemsSplit(a, b, i + 1, x, y);
      assert a.items[i..] == [a.items[i]] + a.items[i + 1..] && b.items[i..] == [b.items[i]] + b.items[i + 1..];
    }
  }

  /** What is left of an object, the same way. */
  lemma MembersOpen(j: Json, keys: seq<string>, first: bool, x: string)
    requires j.Obj? && forall k | k in keys :: k in j.fields
    ensures var text := MembersOf(j, keys, first) + x;
      && (keys == [] ==> text == "}" + x)
      && (keys != [] ==>
            && text[0] != '}' && Ends(MembersOf(j, keys[1..], false) + x)
            && text == (if first then "" else ",") +
                 (Quote(keys[0]) + (":" + (Text(j.fields[keys[0]]) + (MembersOf(j, keys[1..], false) + x)))))
  {
    if keys != [] {
      var comma, name := if first then "" else ",", Quote(keys[0]);
      var value, rest := Text(j.fields[keys[0]]), MembersOf(j, keys[1..], false);
      Regroup(comma + name + ":" + value, rest, x);
      Regroup(comma + name + ":", value, rest + x);
      Regroup(comma + name, ":", value + (rest + x));
      Regroup(comma, name, ":" + (value + (rest + x)));
    }
  }

  lemma {:induction false} MembersSplit(a: Json, b: Json, ka: seq<string>, kb: seq<string>, first: bool,
                                          x: string, y: string)
    requires a.Obj? && b.Obj? && (forall k | k in ka :: k in a.fields) && (forall k | k in kb :: k in b.fields)
    requires Ends(x) && Ends(y) && MembersOf(a, ka, first) + x == MembersOf(b, kb, first) + y
    ensures ka == kb && x == y && forall k | k in ka :: a.fields[k] == b.fields[k]
    decreases a, 0, |ka|
  {
    MembersOpen(a, ka, first, x);
    MembersOpen(b, kb, first, y);
    if ka == [] {
      Prefixed("}", x, y);
    } else {
      var va := Text(a.fields[ka[0]]) + (MembersOf(a, ka[1..], false) + x);
      var vb := Text(b.fields[kb[0]]) + (MembersOf(b, kb[1..], false) + y);
      Prefixed(if first then "" else ",", Quote(ka[0]) + (":" + va), Quote(kb[0]) + (":" + vb));
      QuoteSplits(ka[0], kb[0], ":" + va, ":" + vb);
      Prefixed(":", va, vb);
      TextSplits(a.fields[ka[0]], b.fields[kb[0]], MembersOf(a, ka[1..], false) + x, MembersOf(b, kb[1..], false) + y);
      MembersSplit(a, b, ka[1..], kb[1..], false, x, y);
      assert ka == [ka[0]] + ka[1..] && kb == [kb[0]] + kb[1..];
    }
  }

  lemma SameFields<T>(a: map<string, T>, b: map<string, T>)
    requires SortedKeys(a.Keys) == SortedKeys(b.Keys)
    requires forall k | k in SortedKeys(a.Keys) :: k in a && k in b && a[k] == b[k]
    ensures a == b
  {
  }

  lemma ArraysSplit(a: Json, b: Json, x: string, y: string)
    requires a.Arr? && b.Arr? && Ends(x) && Ends(y) && Text(a) + x == Text(b) + y
    ensures a == b && x == y
    decreases a, 0, |a.items| + 1
  {
    Regroup("[", ItemsFrom(a, 0), x);
    Regroup("[", ItemsFrom(b, 0), y);
    Prefixed("[", ItemsFrom(a, 0) + x, ItemsFrom(b, 0) + y);
    ItemsSplit(a, b, 0, x, y);
    assert a.items[0..] == a.items && b.items[0..] == b.items;
  }

  lemma ObjectsSplit(a: Json, b: Json, x: string, y: string)
    requires a.Obj? && b.Obj? && Ends(x) && Ends(y) && Text(a) + x == Text(b) + y
    ensures a == b && x == y
    decreases a, 0, |SortedKeys(a.fields.Keys)| + 1
  {
    var ka, kb := SortedKeys(a.fields.Keys), SortedKeys(b.fields.Keys);
    Regroup("{", MembersOf(a, ka, true), x);
    Regroup("{", MembersOf(b, kb, true), y);
    Prefixed("{", MembersOf(a, ka, true) + x, MembersOf(b, kb, true) + y);
    MembersSplit(a, b, ka, kb, true, x, y);
    SameFields(a.fields, b.fields);
  }

  /** Equal texts, whatever follows them, are texts of equal trees. */
  lemma {:induction false} TextSplits(a: Json, b: Json, x: string, y: string)
    requires Ends(x) && Ends(y) && Text(a) + x == Text(b) + y
    ensures a == b && x == y
    decreases a, 1, 0
  {
    Opens(a);
    Opens(b);
    Head(Text(a), x);
    Head(Text(b), y);
    match a
    case Null => Prefixed("null", x, y);
    case Bool(on) => Prefixed(if on then "true" else "false", x, y);
    case Num(token) => TokenSplits(token, b.token, x, y);
    case Str(text) => QuoteSplits(text, b.text, x, y);
    case Arr(_) => ArraysSplit(a, b, x, y);
    case Obj(_) => ObjectsSplit(a, b, x, y);
  }

  /** The canonical form is one: two trees have the same text exactly when they are the same tree. */
  lemma {:induction false} Canonical(a: Json, b: Json)
    ensures Text(a) == Text(b) <==> a == b
  {
    if Text(a) == Text(b) {
      assert Text(a) + "" == Text(b) + "";
      TextSplits(a, b, "", "");
    }
  }

  // ----- the builder --------------------------------------------------------------------------

  class Builder {
    var text: string

    constructor ()
      ensures text == ""
    {
      text := "";
    }

    method Write(s: string)
      modifies this
      ensures text == old(text) + s
    {
      text := text + s;
    }
  }

  /** `canonicalJSON`: the text of the tree goes at the end of the builder. */
  method Write(b: Builder, j: Json)
    modifies b
    ensures b.text == old(b.text) + Text(j)
    decreases j, 1, 0
  {
    match j
    case Null => b.Write("null");
    case Bool(on) => b.Write(if on then "true" else "false");
    case Num(token) => b.Write(token);
    case Str(text) => b.Write(Quote(text));
    case Arr(_) => WriteItems(b, j);
    case Obj(_) => WriteMembers(b, j);
  }

  lemma ItemIsNext(t: string, j: Json, i: nat)
    requires j.Arr? && i < |j.items|
    ensures t + ItemsFrom(j, i) == (t + ((if i > 0 then "," else "") + Text(j.items[i]))) + ItemsFrom(j, i + 1)
  {
  }

  lemma MemberIsNext(t: string, j: Json, keys: seq<string>, i: nat)
    requires j.Obj? && i < |keys| && forall k | k in keys :: k in j.fields
    ensures t + MembersOf(j, keys[i..], i == 0) ==
            (t + ((if i == 0 then "" else ",") + Quote(keys[i]) + ":" + Text(j.fields[keys[i]]))) +
            MembersOf(j, keys[i + 1..], false)
  {
  }

  method WriteItem(b: Builder, j: Json, i: nat)
    requires j.Arr? && i < |j.items|
    modifies b
    ensures b.text == old(b.text) + ((if i > 0 then "," else "") + Text(j.items[i]))
    decreases j, 0, 0
  {
    if i > 0 { b.Write(","); }
    Write(b, j.items[i]);
    Regroup(old(b.text), if i > 0 then "," else "", Text(j.items[i]));
  }

  method WriteItems(b: Builder, j: Json)
    requires j.Arr?
    modifies b
    ensures b.text == old(b.text) + Text(j)
    decreases j, 0, 1
  {
    ghost var before := b.text;
    b.Write("[");
    var i := 0;
    Regroup(before, "[", ItemsFrom(j, 0));
    while i < |j.items|
      invariant 0 <= i <= |j.items|
      invariant b.text + ItemsFrom(j, i) == before + Text(j)
    {
      ItemIsNext(b.text, j, i);
      WriteItem(b, j, i);
      i := i + 1;
    }
    b.Write("]");
  }

  method WriteMember(b: Builder, j: Json, k: string, first: bool)
    requires j.Obj? && k in j.fields
    modifies b
    ensures b.text == old(b.text) + ((if first then "" else ",") + Quote(k) + ":" + Text(j.fields[k]))
    decreases j, 0, 0
  {
    ghost var before, comma := b.text, if first then "" else ",";
    if !first { b.Write(","); }
    b.Write(Quote(k));
    b.Write(":");
    Write(b, j.fields[k]);
    Regroup(before, comma, Quote(k));
    Regroup(before, comma + Quote(k), ":");
    Regroup(before, comma + Quote(k) + ":", Text(j.fields[k]));
  }

  method WriteEach(b: Builder, j: Json, keys: seq<string>)
    requires j.Obj? && forall k | k in keys :: k in j.fields
    modifies b
    ensures b.text + "}" == old(b.text) + MembersOf(j, keys, true)
    decreases j, 0, 1
  {
    var i := 0;
    assert keys[0..] == keys;
    while i < |keys|
      invariant 0 <= i <= |keys|
      invariant b.text + MembersOf(j, keys[i..], i == 0) == old(b.text) + MembersOf(j, keys, true)
    {
      MemberIsNext(b.text, j, keys, i);
      WriteMember(b, j, keys[i], i == 0);
      i := i + 1;
    }
    assert keys[i..] == [];
  }

  method WriteMembers(b: Builder, j: Json)
    requires j.Obj?
    modifies b
    ensures b.text == old(b.text) + Text(j)
    decreases j, 0, 2
  {
    ghost var before := b.text;
    var keys := KeysInOrder(j.fields);
    assert forall k | k in keys :: k in Elements(keys);
    b.Write("{");
    WriteEach(b, j, keys);
    b.Write("}");
    Regroup(before, "{", MembersOf(j, keys, true));
  }
}
