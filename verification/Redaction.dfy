/** Recursive redaction of nested data before it is logged. */
module Redaction {

  /** Decoded JSON-like data. Dictionaries keep insertion order; anything that is neither a dictionary nor
      a list is a leaf. */
  datatype Value = Dict(entries: seq<Entry>) | List(items: seq<Value>) | Leaf(text: string)

  datatype Entry = Entry(key: string, value: Value)

  const MASKED := Leaf("***")

  function LowerChar(c: char): char {
    if 'A' <= c <= 'Z' then (c as int + 32) as char else c
  }

  function Lower(s: string): string {
    seq(|s|, i requires 0 <= i < |s| => LowerChar(s[i]))
  }

  predicate OccursAt(part: string, s: string, i: nat) {
    i + |part| <= |s| && s[i..i + |part|] == part
  }

  predicate Occurs(part: string, s: string) {
    exists i: nat :: i <= |s| && OccursAt(part, s, i)
  }

  /** A key is sensitive when its lower-cased text contains one of the listed fragments. */
  predicate Sensitive(key: string) {
    var k := Lower(key);
    Occurs("password", k) || Occurs("passwd", k) || Occurs("secret", k) || Occurs("token", k)
    || Occurs("authorization", k) || Occurs("cookie", k) || Occurs("credential", k)
  }

  const SENSITIVE_KEY_PARTS := ["password", "passwd", "secret", "token", "authorization", "cookie", "credential"]

  /** The character is the given lower-case letter or its capital. */
  predicate SameLetter(c: char, letter: char) {
    c == letter || c as int + 32 == letter as int
  }

  /** The fragment stands in the key from position `i`, whatever the case of the key's letters. */
  ghost predicate StandsAt(part: string, key: string, i: nat) {
    i + |part| <= |key| && forall j :: 0 <= j < |part| ==> SameLetter(key[i + j], part[j])
  }

  lemma OccursAtIff(part: string, key: string, i: nat)
    requires forall j :: 0 <= j < |part| ==> 'a' <= part[j] <= 'z'
    ensures OccursAt(part, Lower(key), i) <==> StandsAt(part, key, i)
  {
    if i + |part| <= |key| {
      var k := Lower(key)[i..i + |part|];
      assert forall j :: 0 <= j < |part| ==> k[j] == LowerChar(key[i + j]);
      assert k == part <==> forall j :: 0 <= j < |part| ==> k[j] == part[j];
    }
  }

  ghost predicate Stands(part: string, key: string) {
    exists i: nat :: i <= |key| && StandsAt(part, key, i)
  }

  lemma OccursIff(part: string, key: string)
    requires forall j :: 0 <= j < |part| ==> 'a' <= part[j] <= 'z'
    ensures Occurs(part, Lower(key)) <==> Stands(part, key)
  {
    forall i: nat
      ensures OccursAt(part, Lower(key), i) <==> StandsAt(part, key, i)
    {
      OccursAtIff(part, key, i);
    }
  }

  /** A key is sensitive exactly when one of the seven fragments stands somewhere in it, in any case. */
  lemma SensitiveIff(key: string)
    ensures Sensitive(key) <==> exists p :: 0 <= p < |SENSITIVE_KEY_PARTS| && Stands(SENSITIVE_KEY_PARTS[p], key)
  {
    forall p | 0 <= p < |SENSITIVE_KEY_PARTS|
      ensures Occurs(SENSITIVE_KEY_PARTS[p], Lower(key)) <==> Stands(SENSITIVE_KEY_PARTS[p], key)
    {
      OccursIff(SENSITIVE_KEY_PARTS[p], key);
    }
    assert Sensitive(key) <==> exists p :: 0 <= p < |SENSITIVE_KEY_PARTS| && Occurs(SENSITIVE_KEY_PARTS[p], Lower(key)) by {
      assert SENSITIVE_KEY_PARTS[0] == "password" && SENSITIVE_KEY_PARTS[1] == "passwd" && SENSITIVE_KEY_PARTS[2] == "secret";
      assert SENSITIVE_KEY_PARTS[3] == "token" && SENSITIVE_KEY_PARTS[4] == "authorization";
      assert SENSITIVE_KEY_PARTS[5] == "cookie" && SENSITIVE_KEY_PARTS[6] == "credential";
    }
  }

  /** `Access_Token` is sensitive, `name` is not. */
  lemma VariantsAreSensitive()
    ensures Sensitive("Access_Token") && !Sensitive("name")
  {
    SensitiveIff("Access_Token");
    SensitiveIff("name");
    assert StandsAt(SENSITIVE_KEY_PARTS[3], "Access_Token", 7);
  }

  /** `_mask_sensitive`. */
  function Mask(v: Value): Value {
    match v
    case Dict(es) => Dict(seq(|es|, i requires 0 <= i < |es| => MaskEntry(es[i])))
    case List(vs) => List(seq(|vs|, i requires 0 <= i < |vs| => Mask(vs[i])))
    case Leaf(_) => v
  }

  function MaskEntry(e: Entry): Entry {
    Entry(e.key, if Sensitive(e.key) then MASKED else Mask(e.value))
  }

  // ---------------------------------------------------------------- what redaction guarantees

  /** The two values may differ only below sensitive keys. */
  ghost predicate Alike(v: Value, w: Value)
    decreases v
  {
    match (v, w)
    case (Dict(es), Dict(fs)) => |es| == |fs| && forall i :: 0 <= i < |es| ==> AlikeEntry(es[i], fs[i])
    case (List(vs), List(ws)) => |vs| == |ws| && forall i :: 0 <= i < |vs| ==> Alike(vs[i], ws[i])
    case (Leaf(s), Leaf(t)) => s == t
    case _ => false
  }

  ghost predicate AlikeEntry(e: Entry, f: Entry)
    decreases e
  {
    e.key == f.key && (Sensitive(e.key) || Alike(e.value, f.value))
  }

  /** Every sensitive key, at any depth that redaction leaves visible, holds the mask. */
  ghost predicate Masked(v: Value) {
    match v
    case Dict(es) => forall i :: 0 <= i < |es| ==> MaskedEntry(es[i])
    case List(vs) => forall i :: 0 <= i < |vs| ==> Masked(vs[i])
    case Leaf(_) => true
  }

  ghost predicate MaskedEntry(e: Entry) {
    if Sensitive(e.key) then e.value == Leaf("***") else Masked(e.value)
  }

  /** Redaction reveals exactly what is not below a sensitive key: two inputs have the same output if and
      only if they differ nowhere else. */
  lemma {:induction false} OutputsAgreeIff(v: Value, w: Value)
    ensures Mask(v) == Mask(w) <==> Alike(v, w)
    decreases v
  {
    match (v, w) {
      case (Dict(es), Dict(fs)) =>
        if |es| == |fs| {
          forall i | 0 <= i < |es|
            ensures MaskEntry(es[i]) == MaskEntry(fs[i]) <==> AlikeEntry(es[i], fs[i])
          {
            OutputsAgreeIff(es[i].value, fs[i].value);
          }
          forall i | 0 <= i < |es|
            ensures Mask(v).entries[i] == MaskEntry(es[i]) && Mask(w).entries[i] == MaskEntry(fs[i])
          {
          }
        } else {
          assert |Mask(v).entries| != |Mask(w).entries|;
        }
      case (List(vs), List(ws)) =>
        if |vs| == |ws| {
          forall i | 0 <= i < |vs|
            ensures Mask(vs[i]) == Mask(ws[i]) <==> Alike(vs[i], ws[i])
          {
            OutputsAgreeIff(vs[i], ws[i]);
          }
          forall i | 0 <= i < |vs|
            ensures Mask(v).items[i] == Mask(vs[i]) && Mask(w).items[i] == Mask(ws[i])
          {
          }
        } else {
          assert |Mask(v).items| != |Mask(w).items|;
        }
      case _ =>
    }
  }

  /** The output is masked throughout, and keeps keys, order and lengths. */
  lemma {:induction false} OutputIsMasked(v: Value)
    ensures Masked(Mask(v))
    ensures v.Dict? ==> Mask(v).Dict? && |Mask(v).entries| == |v.entries|
                        && forall i :: 0 <= i < |v.entries| ==> Mask(v).entries[i].key == v.entries[i].key
    ensures v.List? ==> Mask(v).List? && |Mask(v).items| == |v.items|
  {
    match v {
      case Dict(es) =>
        forall i | 0 <= i < |es|
          ensures MaskedEntry(Mask(v).entries[i])
        {
          OutputIsMasked(es[i].value);
        }
      case List(vs) =>
        forall i | 0 <= i < |vs|
          ensures Masked(Mask(v).items[i])
        {
          OutputIsMasked(vs[i]);
        }
      case Leaf(_) =>
    }
  }

  /** Redaction changes nothing exactly when everything sensitive is masked already. */
  lemma {:induction false} UnchangedIffMasked(v: Value)
    ensures Mask(v) == v <==> Masked(v)
  {
    match v {
      case Dict(es) =>
        forall i | 0 <= i < |es|
          ensures MaskEntry(es[i]) == es[i] <==> MaskedEntry(es[i])
        {
          UnchangedIffMasked(es[i].value);
        }
        assert Mask(v).entries == es <==> forall i :: 0 <= i < |es| ==> MaskEntry(es[i]) == es[i] by {
          assert forall i :: 0 <= i < |es| ==> Mask(v).entries[i] == MaskEntry(es[i]);
        }
      case List(vs) =>
        forall i | 0 <= i < |vs|
          ensures Mask(vs[i]) == vs[i] <==> Masked(vs[i])
        {
          UnchangedIffMasked(vs[i]);
        }
        assert Mask(v).items == vs <==> forall i :: 0 <= i < |vs| ==> Mask(vs[i]) == vs[i] by {
          assert forall i :: 0 <= i < |vs| ==> Mask(v).items[i] == Mask(vs[i]);
        }
      case Leaf(_) =>
    }
  }

  /** Redacting twice is redacting once. */
  lemma MaskTwice(v: Value)
    ensures Mask(Mask(v)) == Mask(v)
  {
    OutputIsMasked(v);
    UnchangedIffMasked(Mask(v));
  }
}
