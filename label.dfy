// A label is a name and value pair (pkg/labels/labels.go, type Label), with
// the rules that make a pair valid.
module LabelPair {
  import opened Wrappers
  import Quoting

  /** The reserved label names. */
  const Name: string := "__name__"
  const Provider: string := "__provider__"

  datatype Label = Label(name: string, value: string)

  predicate IsLetter(c: char) { 'a' <= c <= 'z' || 'A' <= c <= 'Z' }
  predicate IsDigit(c: char) { '0' <= c <= '9' }

  /** A character allowed at index i of a label name. */
  predicate NameChar(c: char, i: nat) { IsLetter(c) || (IsDigit(c) && i > 0) || c == '_' }

  /** A name is non-empty and made of ASCII letters, digits and underscores,
      with no digit first. */
  predicate ValidName(name: string)
  {
    name != [] && forall i :: 0 <= i < |name| ==> NameChar(name[i], i)
  }

  /** NameValid: the loop over the characters of the name. */
  method NameValid(name: string) returns (ok: bool)
    ensures ok == ValidName(name)
  {
    if name == [] {
      return false;
    }
    var i := 0;
    while i < |name|
      invariant 0 <= i <= |name|
      invariant forall j :: 0 <= j < i ==> NameChar(name[j], j)
    {
      if !NameChar(name[i], i) {
        return false;
      }
      i := i + 1;
    }
    return true;
  }

  /** ValueValid: a value is non-empty and valid UTF-8; every string of this
      model is a sequence of Unicode scalar values, so only emptiness fails. */
  predicate ValueValid(value: string)
  {
    value != []
  }

  /** Label.Validate: the name is checked before the value, and an empty
      name or value has its own message. */
  function Validate(l: Label): (err: Option<string>)
    ensures err.None? <==> ValidName(l.name) && ValueValid(l.value)
    ensures !ValidName(l.name) ==>
      err == Some(if l.name == [] then "empty label name" else "invalid label name: " + l.name)
    ensures ValidName(l.name) && l.value == [] ==> err == Some("empty label value")
  {
    if !ValidName(l.name) then
      Some(if l.name == [] then "empty label name" else "invalid label name: " + l.name)
    else if !ValueValid(l.value) then
      Some(if l.value == [] then "empty label value" else "invalid label value: " + l.value)
    else None
  }

  /** Label.String: the name, '=', then the value quoted as by %q. */
  function String(l: Label): (r: string)
    ensures |r| == |l.name| + 1 + |Quoting.GoQuote(l.value)|
    ensures r[..|l.name|] == l.name && r[|l.name|] == '='
    ensures Quoting.GoUnquote(r[|l.name| + 1..]) == Some(l.value)
  {
    var r := l.name + "=" + Quoting.GoQuote(l.value);
    assert r[|l.name| + 1..] == Quoting.GoQuote(l.value);
    Quoting.GoQuoteRoundTrip(l.value);
    r
  }
}
