/** The text a landing row's id is computed from, and what it says about the row. */
module LandingIds {
  import opened Texts
  import opened CanonicalJson

  const DIGEST: nat := 64

  function Fingerprint(sum: string): string { "sha256:" + sum }

  /** The third slot: the record's key, or its content when it has none. */
  function Slot(key: string, sum: string): string { if key == "" then Fingerprint(sum) else key }

  /** The four slots, joined by bars. */
  function Joined(provider: string, entity: string, sourceKey: string, recordTS: string): string {
    provider + "|" + entity + "|" + sourceKey + "|" + recordTS
  }

  function IdText(table: string, key: string, sum: string): string {
    Joined("auto_table", table, Slot(key, sum), Fingerprint(sum))
  }

  /** The text of an id, spelled out: a record with no key of its own goes by its content. */
  lemma IdTextIs(table: string, key: string, sum: string)
    ensures IdText(table, key, sum) ==
      "auto_table|" + table + "|" + (if key == "" then "sha256:" + sum else key) + "|sha256:" + sum
  {
    var slot := if key == "" then "sha256:" + sum else key;
    assert "auto_table|" == "auto_table" + "|" && "|sha256:" == "|" + "sha256:";
    Regroup("auto_table|" + table + "|" + slot, "|", "sha256:" + sum);
  }

  lemma SlotsOf(table: string, key: string, sum: string)
    ensures IdText(table, key, sum) == "auto_table|" + (table + "|" + (Slot(key, sum) + ("|" + Fingerprint(sum))))
  {
  }

  /** With no bar in the table's name the text says which table, which slot and which content, even of a key that
      holds bars: the last slot has one length. */
  lemma IdTextSplits(t1: string, k1: string, s1: string, t2: string, k2: string, s2: string)
    requires '|' !in t1 && '|' !in t2 && |s1| == |s2| == DIGEST
    ensures IdText(t1, k1, s1) == IdText(t2, k2, s2) <==> t1 == t2 && Slot(k1, s1) == Slot(k2, s2) && s1 == s2
  {
    if IdText(t1, k1, s1) == IdText(t2, k2, s2) {
      SlotsOf(t1, k1, s1);
      SlotsOf(t2, k2, s2);
      var x1, x2 := Slot(k1, s1) + ("|" + Fingerprint(s1)), Slot(k2, s2) + ("|" + Fingerprint(s2));
      Prefixed("auto_table|", t1 + "|" + x1, t2 + "|" + x2);
      FirstMark('|', t1, t2, x1, x2);
      SameEnd(Slot(k1, s1), Slot(k2, s2), "|" + Fingerprint(s1), "|" + Fingerprint(s2));
      Prefixed("|", Fingerprint(s1), Fingerprint(s2));
      Prefixed("sha256:", s1, s2);
    }
  }

  /** A keyless record meets a keyed one only under the key that spells its own fingerprint. */
  predicate KeysMeet(k1: string, k2: string, sum: string) {
    k1 == k2 || (k1 == "" && k2 == Fingerprint(sum)) || (k2 == "" && k1 == Fingerprint(sum))
  }

  /** Two rows have one id text exactly when they are the same record, in the same table, under keys that meet --
      given a digest that tells their canonical texts apart. */
  lemma SameIdSameRow(t1: string, k1: string, a: Json, t2: string, k2: string, b: Json, digest: string -> string)
    requires '|' !in t1 && '|' !in t2 && |digest(Text(a))| == |digest(Text(b))| == DIGEST
    requires digest(Text(a)) == digest(Text(b)) ==> Text(a) == Text(b)
    ensures IdText(t1, k1, digest(Text(a))) == IdText(t2, k2, digest(Text(b))) <==>
            t1 == t2 && a == b && KeysMeet(k1, k2, digest(Text(a)))
  {
    IdTextSplits(t1, k1, digest(Text(a)), t2, k2, digest(Text(b)));
    Canonical(a, b);
  }

  /** The name does have to be free of bars: every table whose name holds one shares its ids with another. */
  lemma BarsMove(table: string, i: nat, key: string, sum: string)
    requires i < |table| && table[i] == '|' && key != ""
    ensures table[..i] != table
    ensures IdText(table, key, sum) == IdText(table[..i], table[i + 1..] + "|" + key, sum)
  {
  }
}
