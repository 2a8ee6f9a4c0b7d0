/**
 * `getCookie`: the value of a named cookie in a request's `Cookie` header,
 * passed through `decodeURIComponent`.
 */
module Cookies {
  import opened Wrappers
  import opened Text

  /**
   * `v.split(/;\s*\/)` of the header, an absent header read as `""`: split at
   * every `;`, the white space after a `;` belonging to the separator.
   */
  function CookieParts(header: Option<string>): (parts: seq<string>)
    ensures |parts| >= 1
  {
    var raw := Split(header.GetOr(""), ';');
    [raw[0]] + TrimAll(raw[1..])
  }

  /** `TrimStart` of every piece. */
  function TrimAll(pieces: seq<string>): (r: seq<string>)
    ensures |r| == |pieces|
    ensures forall i :: 0 <= i < |r| ==> r[i] == TrimStart(pieces[i])
  {
    if |pieces| == 0 then [] else [TrimStart(pieces[0])] + TrimAll(pieces[1..])
  }

  /** `const [k, ...rest] = part.split("=")`: `k`, the text before the first `=`. */
  function KeyOf(part: string): string {
    Split(part, '=')[0]
  }

  /** `rest.join("=")`: everything after the first `=`, or `""` when there is none. */
  function ValueOf(part: string): string {
    Join(Split(part, '=')[1..], '=')
  }

  /** The decoded value of the first part whose key is `name`. */
  function Find(parts: seq<string>, name: string, decode: string -> string): (r: Option<string>)
    ensures r.None? <==> forall i :: 0 <= i < |parts| ==> KeyOf(parts[i]) != name
    ensures r.Some? ==> exists i :: && 0 <= i < |parts| && KeyOf(parts[i]) == name
                                   && (forall j :: 0 <= j < i ==> KeyOf(parts[j]) != name)
                                   && r.value == decode(ValueOf(parts[i]))
  {
    if |parts| == 0 then None
    else if KeyOf(parts[0]) == name then
      Some(decode(ValueOf(parts[0])))
    else
      var r := Find(parts[1..], name, decode);
      assert forall i :: 1 <= i < |parts| ==> parts[i] == parts[1..][i - 1];
      if r.Some? then
        var i :| && 0 <= i < |parts[1..]| && KeyOf(parts[1..][i]) == name
                 && (forall j :: 0 <= j < i ==> KeyOf(parts[1..][j]) != name)
                 && r.value == decode(ValueOf(parts[1..][i]));
        assert forall j :: 0 <= j < i + 1 ==> KeyOf(parts[j]) != name by {
          forall j | 0 <= j < i + 1 ensures KeyOf(parts[j]) != name {
            if j > 0 { assert parts[j] == parts[1..][j - 1]; }
          }
        }
        r
      else r
  }

  /** The value `getCookie` returns: `null` (`None`) when no part has the key. */
  function CookieValue(header: Option<string>, name: string, decode: string -> string): Option<string> {
    Find(CookieParts(header), name, decode)
  }

  /**
   * `getCookie(req, name)`: splits the header into parts and returns at the
   * first part whose key is `name`.
   */
  method GetCookie(header: Option<string>, name: string, decode: string -> string) returns (r: Option<string>)
    ensures r == CookieValue(header, name, decode)
  {
    var parts := CookieParts(header);
    r := FirstCookie(parts, name, decode);
  }

  /** The loop of `getCookie` over the parts, with its early return. */
  method FirstCookie(parts: seq<string>, name: string, decode: string -> string) returns (r: Option<string>)
    ensures r == Find(parts, name, decode)
  {
    var i := 0;
    while i < |parts|
      invariant 0 <= i <= |parts|
      invariant forall j :: 0 <= j < i ==> KeyOf(parts[j]) != name
    {
      var pieces := Split(parts[i], '=');
      var k, rest := pieces[0], pieces[1..];
      if k == name {
        FirstMatchIsFound(parts, name, decode, i);
        return Some(decode(Join(rest, '=')));
      }
      i := i + 1;
    }
    return None;
  }

  /** The first part with key `name` decides what `Find` returns. */
  lemma FirstMatchIsFound(parts: seq<string>, name: string, decode: string -> string, i: nat)
    requires i < |parts| && KeyOf(parts[i]) == name
    requires forall j :: 0 <= j < i ==> KeyOf(parts[j]) != name
    ensures Find(parts, name, decode) == Some(decode(ValueOf(parts[i])))
  {
    var r := Find(parts, name, decode);
    var i' :| && 0 <= i' < |parts| && KeyOf(parts[i']) == name
              && (forall j :: 0 <= j < i' ==> KeyOf(parts[j]) != name)
              && r.value == decode(ValueOf(parts[i']));
    assert i' == i;
  }

  // ------------------------------------------------------------ properties

  /** A part `k=v` with no `=` in `k` has key `k` and value `v`, whatever `v` holds. */
  lemma KeyValueOfPair(k: string, v: string)
    requires '=' !in k
    ensures KeyOf(k + "=" + v) == k && ValueOf(k + "=" + v) == v
  {
    assert k + "=" + v == k + ['='] + v;
    SplitAtSeparator(k, '=', v);
  }

  /** A part with an `=` in it is its key, an `=`, and its value. */
  lemma PartReassembles(part: string)
    requires '=' in part
    ensures part == KeyOf(part) + "=" + ValueOf(part)
  {
    var pieces := Split(part, '=');
    assert Join(pieces, '=') == pieces[0] + ['='] + Join(pieces[1..], '=');
  }

  /** A cookie pair as a user agent sends it: `name=value`. */
  function Pair(name: string, value: string): string {
    name + "=" + value
  }

  /** What a user agent may send as the name of a cookie here. */
  predicate GoodName(name: string) {
    '=' !in name && ';' !in name && (|name| == 0 || !IsWhiteSpace(name[0]))
  }

  /** The pieces of a header with the pairs joined by `"; "`. */
  function HeaderPieces(names: seq<string>, values: seq<string>): (r: seq<string>)
    requires |names| == |values|
    ensures |r| == |names|
    ensures forall i :: 0 <= i < |r| ==> r[i] == if i == 0 then Pair(names[0], values[0]) else " " + Pair(names[i], values[i])
  {
    seq(|names|, i requires 0 <= i < |names| => if i == 0 then Pair(names[0], values[0]) else " " + Pair(names[i], values[i]))
  }

  /** The `Cookie` header `n1=v1; n2=v2; …` of section 5.4 of RFC 6265. */
  function CookieHeader(names: seq<string>, values: seq<string>): string
    requires |names| == |values|
  {
    Join(HeaderPieces(names, values), ';')
  }

  lemma TrimStartOfSpaced(t: string)
    requires |t| > 0 && !IsWhiteSpace(t[0])
    ensures TrimStart(" " + t) == t
  {
    assert (" " + t)[1..] == t;
  }

  /** The parts of a header built from pairs are the pairs. */
  lemma HeaderParts(names: seq<string>, values: seq<string>)
    requires |names| == |values| >= 1
    requires forall i :: 0 <= i < |names| ==> GoodName(names[i])
    requires forall i :: 0 <= i < |values| ==> ';' !in values[i]
    ensures var parts := CookieParts(Some(CookieHeader(names, values)));
      |parts| == |names| && forall i :: 0 <= i < |parts| ==> parts[i] == Pair(names[i], values[i])
  {
    var pieces := HeaderPieces(names, values);
    var header := CookieHeader(names, values);
    PiecesHaveNoSemicolon(names, values);
    SplitJoin(pieces, ';');
    assert Split(header, ';') == pieces;
    TrimmedPieces(names, values);
    var parts := CookieParts(Some(header));
    assert parts == [pieces[0]] + TrimAll(pieces[1..]);
    forall i | 0 <= i < |parts| ensures parts[i] == Pair(names[i], values[i]) {
      if i > 0 {
        assert parts[i] == TrimAll(pieces[1..])[i - 1];
      }
    }
  }

  lemma PiecesHaveNoSemicolon(names: seq<string>, values: seq<string>)
    requires |names| == |values|
    requires forall i :: 0 <= i < |names| ==> ';' !in names[i]
    requires forall i :: 0 <= i < |values| ==> ';' !in values[i]
    ensures forall i :: 0 <= i < |names| ==> ';' !in HeaderPieces(names, values)[i]
  {
    var pieces := HeaderPieces(names, values);
    forall i | 0 <= i < |pieces| ensures ';' !in pieces[i] {
      assert ';' !in Pair(names[i], values[i]);
    }
  }

  /** Dropping the space after each `;` gives back the pairs. */
  lemma TrimmedPieces(names: seq<string>, values: seq<string>)
    requires |names| == |values| >= 1
    requires forall i :: 0 <= i < |names| ==> GoodName(names[i])
    ensures var rest := TrimAll(HeaderPieces(names, values)[1..]);
      forall i :: 0 <= i < |rest| ==> rest[i] == Pair(names[i + 1], values[i + 1])
  {
    var pieces := HeaderPieces(names, values);
    var rest := TrimAll(pieces[1..]);
    forall i | 0 <= i < |rest| ensures rest[i] == Pair(names[i + 1], values[i + 1]) {
      var p := Pair(names[i + 1], values[i + 1]);
      assert pieces[1..][i] == " " + p;
      assert p[0] == if |names[i + 1]| == 0 then '=' else names[i + 1][0];
      TrimStartOfSpaced(p);
    }
  }

  /**
   * Round trip with the `Cookie` header: every part of a header built from
   * pairs has the name of its pair as key and the pair's value as value.
   */
  lemma HeaderRoundTrip(names: seq<string>, values: seq<string>)
    requires |names| == |values| >= 1
    requires forall i :: 0 <= i < |names| ==> GoodName(names[i])
    requires forall i :: 0 <= i < |values| ==> ';' !in values[i]
    ensures var parts := CookieParts(Some(CookieHeader(names, values)));
      && |parts| == |names|
      && forall i :: 0 <= i < |parts| ==> KeyOf(parts[i]) == names[i] && ValueOf(parts[i]) == values[i]
  {
    HeaderParts(names, values);
    var parts := CookieParts(Some(CookieHeader(names, values)));
    forall i | 0 <= i < |parts| ensures KeyOf(parts[i]) == names[i] && ValueOf(parts[i]) == values[i] {
      KeyValueOfPair(names[i], values[i]);
    }
  }

  /** Using the round trip: the first pair named `name` is the one `getCookie` picks. */
  lemma FirstPairWins(names: seq<string>, values: seq<string>, name: string, decode: string -> string, i: nat)
    requires |names| == |values| >= 1
    requires forall i :: 0 <= i < |names| ==> GoodName(names[i])
    requires forall i :: 0 <= i < |values| ==> ';' !in values[i]
    requires i < |names| && names[i] == name && forall j :: 0 <= j < i ==> names[j] != name
    ensures CookieValue(Some(CookieHeader(names, values)), name, decode) == Some(decode(values[i]))
  {
    HeaderRoundTrip(names, values);
    FirstMatchIsFound(CookieParts(Some(CookieHeader(names, values))), name, decode, i);
  }

  /** A name that no pair of the header has is not found: `getCookie` returns `null`. */
  lemma AbsentNameGivesNull(names: seq<string>, values: seq<string>, name: string, decode: string -> string)
    requires |names| == |values| >= 1
    requires forall i :: 0 <= i < |names| ==> GoodName(names[i])
    requires forall i :: 0 <= i < |values| ==> ';' !in values[i]
    requires name !in names
    ensures CookieValue(Some(CookieHeader(names, values)), name, decode) == None
  {
    HeaderRoundTrip(names, values);
  }
}
