/** The text the cache stores: `json.dumps` of a collection, and `json.loads`
    reading it back. Object members appear in dict order; strings escape the
    quote and the backslash. */
module Codec {
  import opened Wrappers
  import opened Digits
  import opened Geo

  // ---------------------------------------------------------------------------
  // Writing: each writer takes the text that follows what it writes

  function EscapeChar(c: char): string {
    if c == '"' || c == '\\' then ['\\', c] else [c]
  }

  function EscapeThen(s: string, k: string): string {
    if s == [] then k else EscapeChar(s[0]) + EscapeThen(s[1..], k)
  }

  /** A JSON string literal for `s`. */
  function QuoteThen(s: string, k: string): string {
    "\"" + EscapeThen(s, "\"" + k)
  }

  function IntThen(n: int, k: string): string {
    if n < 0 then "-" + (NatText(-n) + k) else NatText(n) + k
  }

  function PropThen(p: Prop, k: string): string
    requires !p.Absent?
  {
    if p.Null? then "null" + k else IntThen(p.n, k)
  }

  function MemberThen(p: (string, string), k: string): string {
    QuoteThen(p.0, ": " + QuoteThen(p.1, k))
  }

  function MembersTailThen(ps: Pairs, k: string): string {
    if ps == [] then "}" + k else ", " + MemberThen(ps[0], MembersTailThen(ps[1..], k))
  }

  /** A flat object of string members, `{"k": "v", ...}`. */
  function PairsThen(ps: Pairs, k: string): string {
    "{" + (if ps == [] then "}" + k else MemberThen(ps[0], MembersTailThen(ps[1..], k)))
  }

  /** The members of a `properties` object for the present properties, and its
      closing brace. */
  function PropsThen(felt: Prop, tsunami: Prop, k: string): string {
    if felt.Absent? && tsunami.Absent? then "}" + k
    else if tsunami.Absent? then "\"felt\": " + PropThen(felt, "}" + k)
    else if felt.Absent? then "\"tsunami\": " + PropThen(tsunami, "}" + k)
    else "\"felt\": " + PropThen(felt, ", \"tsunami\": " + PropThen(tsunami, "}" + k))
  }

  function FeatureThen(f: Feature, k: string): string {
    "{\"id\": " + QuoteThen(f.id, ", \"properties\": {" + PropsThen(f.felt, f.tsunami, "}" + k))
  }

  function FeaturesTailThen(fs: seq<Feature>, k: string): string {
    if fs == [] then "]" + k else ", " + FeatureThen(fs[0], FeaturesTailThen(fs[1..], k))
  }

  function FeaturesThen(fs: seq<Feature>, k: string): string {
    "[" + (if fs == [] then "]" + k else FeatureThen(fs[0], FeaturesTailThen(fs[1..], k)))
  }

  function MetadataThen(m: Option<Pairs>, k: string): string {
    if m.None? then k else ", \"metadata\": " + PairsThen(m.value, k)
  }

  /** `json.dumps(data)`. */
  function Encode(c: Collection): (s: string)
    ensures |s| > 0 && s[0] == '{'
  {
    "{\"type\": " + QuoteThen(c.kind, MetadataThen(c.metadata, ", \"features\": " + FeaturesThen(c.features, "}")))
  }

  // ---------------------------------------------------------------------------
  // Reading: each parser returns what it read and the text after it

  function Lit(lit: string, s: string): (r: Option<string>)
    ensures r.Some? ==> s == lit + r.value
  {
    if |lit| <= |s| && s[..|lit|] == lit then
      assert s == s[..|lit|] + s[|lit|..];
      Some(s[|lit|..])
    else None
  }

  lemma LitPrefix(lit: string, rest: string)
    ensures Lit(lit, lit + rest) == Some(rest)
  {
    assert (lit + rest)[..|lit|] == lit;
    assert (lit + rest)[|lit|..] == rest;
  }

  /** The characters of a string literal up to and including its closing quote. */
  function ParseBody(s: string): (r: Option<(string, string)>)
    ensures r.Some? ==> |r.value.1| < |s|
  {
    if s == [] then None
    else if s[0] == '"' then Some(([], s[1..]))
    else if s[0] == '\\' then
      if |s| < 2 then None
      else match ParseBody(s[2..])
        case None => None
        case Some((b, rest)) => Some(([s[1]] + b, rest))
    else match ParseBody(s[1..])
      case None => None
      case Some((b, rest)) => Some(([s[0]] + b, rest))
  }

  function ParseQuoted(s: string): (r: Option<(string, string)>)
    ensures r.Some? ==> |r.value.1| < |s|
  {
    match Lit("\"", s)
    case None => None
    case Some(t) => ParseBody(t)
  }

  /** Length of the run of digits `s` starts with. */
  function DigitRun(s: string): (k: nat)
    ensures k <= |s| && AllDigits(s[..k])
  {
    if s != [] && IsDigit(s[0]) then
      var k := 1 + DigitRun(s[1..]);
      assert s[..k] == [s[0]] + s[1..][..k - 1];
      k
    else 0
  }

  function ParseNat(s: string): (r: Option<(nat, string)>)
    ensures r.Some? ==> |r.value.1| < |s|
  {
    var k := DigitRun(s);
    if k == 0 then None else Some((Number(s[..k]), s[k..]))
  }

  function ParseInt(s: string): (r: Option<(int, string)>)
    ensures r.Some? ==> |r.value.1| < |s|
  {
    if s != [] && s[0] == '-' then
      match ParseNat(s[1..])
      case None => None
      case Some((n, rest)) => Some((-(n as int), rest))
    else
      match ParseNat(s)
      case None => None
      case Some((n, rest)) => Some((n as int, rest))
  }

  /** A property value: `null` or an integer (never Absent). */
  function ParseProp(s: string): (r: Option<(Prop, string)>)
    ensures r.Some? ==> |r.value.1| < |s| && !r.value.0.Absent?
  {
    match Lit("null", s)
    case Some(rest) => Some((Null, rest))
    case None =>
      match ParseInt(s)
      case None => None
      case Some((n, rest)) => Some((Num(n), rest))
  }

  /** The members of a `properties` object and its closing brace. */
  function ParseProps(s: string): (r: Option<(Prop, Prop, string)>)
    ensures r.Some? ==> |r.value.2| < |s|
  {
    match Lit("}", s)
    case Some(rest) => Some((Absent, Absent, rest))
    case None =>
      match Lit("\"felt\": ", s)
      case Some(t) =>
        (match ParseProp(t)
         case None => None
         case Some((felt, u)) =>
           match Lit("}", u)
           case Some(rest) => Some((felt, Absent, rest))
           case None =>
             match Lit(", \"tsunami\": ", u)
             case None => None
             case Some(v) =>
               match ParseProp(v)
               case None => None
               case Some((tsunami, w)) =>
                 match Lit("}", w)
                 case None => None
                 case Some(rest) => Some((felt, tsunami, rest)))
      case None =>
        match Lit("\"tsunami\": ", s)
        case None => None
        case Some(t) =>
          match ParseProp(t)
          case None => None
          case Some((tsunami, u)) =>
            match Lit("}", u)
            case None => None
            case Some(rest) => Some((Absent, tsunami, rest))
  }

  function ParseFeature(s: string): (r: Option<(Feature, string)>)
    ensures r.Some? ==> |r.value.1| < |s|
  {
    match Lit("{\"id\": ", s)
    case None => None
    case Some(t) =>
      match ParseQuoted(t)
      case None => None
      case Some((id, u)) =>
        match Lit(", \"properties\": {", u)
        case None => None
        case Some(v) =>
          match ParseProps(v)
          case None => None
          case Some((felt, tsunami, w)) =>
            match Lit("}", w)
            case None => None
            case Some(rest) => Some((Feature(id, felt, tsunami), rest))
  }

  /** Features after the first, up to and including the closing bracket. */
  function ParseFeaturesTail(s: string): (r: Option<(seq<Feature>, string)>)
    ensures r.Some? ==> |r.value.1| < |s|
    decreases |s|
  {
    match Lit("]", s)
    case Some(rest) => Some(([], rest))
    case None =>
      match Lit(", ", s)
      case None => None
      case Some(t) =>
        match ParseFeature(t)
        case None => None
        case Some((f, u)) =>
          match ParseFeaturesTail(u)
          case None => None
          case Some((fs, rest)) => Some(([f] + fs, rest))
  }

  function ParseFeatures(s: string): (r: Option<(seq<Feature>, string)>)
    ensures r.Some? ==> |r.value.1| < |s|
  {
    match Lit("[", s)
    case None => None
    case Some(t) =>
      match Lit("]", t)
      case Some(rest) => Some(([], rest))
      case None =>
        match ParseFeature(t)
        case None => None
        case Some((f, u)) =>
          match ParseFeaturesTail(u)
          case None => None
          case Some((fs, rest)) => Some(([f] + fs, rest))
  }

  function ParseMember(s: string): (r: Option<((string, string), string)>)
    ensures r.Some? ==> |r.value.1| < |s|
  {
    match ParseQuoted(s)
    case None => None
    case Some((k, t)) =>
      match Lit(": ", t)
      case None => None
      case Some(u) =>
        match ParseQuoted(u)
        case None => None
        case Some((v, rest)) => Some(((k, v), rest))
  }

  function ParseMembersTail(s: string): (r: Option<(Pairs, string)>)
    ensures r.Some? ==> |r.value.1| < |s|
    decreases |s|
  {
    match Lit("}", s)
    case Some(rest) => Some(([], rest))
    case None =>
      match Lit(", ", s)
      case None => None
      case Some(t) =>
        match ParseMember(t)
        case None => None
        case Some((p, u)) =>
          match ParseMembersTail(u)
          case None => None
          case Some((ps, rest)) => Some(([p] + ps, rest))
  }

  function ParsePairs(s: string): (r: Option<(Pairs, string)>)
    ensures r.Some? ==> |r.value.1| < |s|
  {
    match Lit("{", s)
    case None => None
    case Some(t) =>
      match Lit("}", t)
      case Some(rest) => Some(([], rest))
      case None =>
        match ParseMember(t)
        case None => None
        case Some((p, u)) =>
          match ParseMembersTail(u)
          case None => None
          case Some((ps, rest)) => Some(([p] + ps, rest))
  }

  /** `json.loads(text)` for a stored collection; None where it raises. */
  function Decode(s: string): Option<Collection> {
    match Lit("{\"type\": ", s)
    case None => None
    case Some(t) =>
      match ParseQuoted(t)
      case None => None
      case Some((kind, u)) =>
        var meta: Option<(Option<Pairs>, string)> :=
          match Lit(", \"metadata\": ", u)
          case None => Some((None, u))
          case Some(v) =>
            (match ParsePairs(v)
             case None => None
             case Some((ps, w)) => Some((Some(ps), w)));
        match meta
        case None => None
        case Some((metadata, w)) =>
          match Lit(", \"features\": ", w)
          case None => None
          case Some(x) =>
            match ParseFeatures(x)
            case None => None
            case Some((fs, y)) =>
              if y == "}" then Some(Collection(kind, metadata, fs)) else None
  }

  /** The text the decoder uses to report malformed stored data. */
  const MalformedText := "stored value is not a JSON feature collection"

  // ---------------------------------------------------------------------------
  // Round trip: `json.loads(json.dumps(c)) == c`

  lemma {:induction false} BodyRoundTrip(x: string, rest: string)
    ensures ParseBody(EscapeThen(x, "\"" + rest)) == Some((x, rest))
  {
    if x != [] {
      var c := x[0];
      var tail := EscapeThen(x[1..], "\"" + rest);
      BodyRoundTrip(x[1..], rest);
      if c == '"' || c == '\\' {
        assert (EscapeChar(c) + tail)[2..] == tail;
      } else {
        assert (EscapeChar(c) + tail)[1..] == tail;
      }
      assert [c] + x[1..] == x;
    }
  }

  lemma QuoteRoundTrip(x: string, rest: string)
    ensures ParseQuoted(QuoteThen(x, rest)) == Some((x, rest))
  {
    LitPrefix("\"", EscapeThen(x, "\"" + rest));
    BodyRoundTrip(x, rest);
  }

  /** The text after a number: nothing, or a character that is not a digit. */
  predicate Delimited(rest: string) {
    rest == [] || !IsDigit(rest[0])
  }

  lemma {:induction false} DigitRunOf(d: string, rest: string)
    requires AllDigits(d) && Delimited(rest)
    ensures DigitRun(d + rest) == |d|
  {
    if d != [] {
      assert (d + rest)[1..] == d[1..] + rest;
      DigitRunOf(d[1..], rest);
    }
  }

  lemma NatRoundTrip(n: nat, rest: string)
    requires Delimited(rest)
    ensures ParseNat(NatText(n) + rest) == Some((n, rest))
  {
    var d := NatText(n);
    DigitRunOf(d, rest);
    assert (d + rest)[..|d|] == d && (d + rest)[|d|..] == rest;
    NumberOfNatText(n);
  }

  lemma IntRoundTrip(n: int, rest: string)
    requires Delimited(rest)
    ensures ParseInt(IntThen(n, rest)) == Some((n, rest))
  {
    if n < 0 {
      NegativeRoundTrip(-n, rest);
    } else {
      var s := NatText(n) + rest;
      assert s[0] != '-';
      NatRoundTrip(n, rest);
    }
  }

  lemma NegativeRoundTrip(m: nat, rest: string)
    requires m > 0 && Delimited(rest)
    ensures ParseInt("-" + (NatText(m) + rest)) == Some((-(m as int), rest))
  {
    var t := NatText(m) + rest;
    assert ("-" + t)[1..] == t;
    NatRoundTrip(m, rest);
  }

  /** A literal cannot match where the text differs from it at position `i`. */
  lemma LitMiss(lit: string, s: string, i: nat)
    requires i < |lit| && i < |s| && s[i] != lit[i]
    ensures Lit(lit, s).None?
  {
  }

  lemma PropRoundTrip(p: Prop, rest: string)
    requires !p.Absent? && Delimited(rest)
    ensures ParseProp(PropThen(p, rest)) == Some((p, rest))
  {
    if p.Null? {
      LitPrefix("null", rest);
    } else {
      var t := IntThen(p.n, rest);
      assert t[0] == '-' || IsDigit(t[0]);
      LitMiss("null", t, 0);
      IntRoundTrip(p.n, rest);
    }
  }

  lemma PropsRoundTrip(felt: Prop, tsunami: Prop, rest: string)
    ensures ParseProps(PropsThen(felt, tsunami, rest)) == Some((felt, tsunami, rest))
  {
    var s := PropsThen(felt, tsunami, rest);
    if felt.Absent? && tsunami.Absent? {
      LitPrefix("}", rest);
    } else if tsunami.Absent? {
      LitMiss("}", s, 0);
      LitPrefix("\"felt\": ", PropThen(felt, "}" + rest));
      PropRoundTrip(felt, "}" + rest);
      LitPrefix("}", rest);
    } else if felt.Absent? {
      LitMiss("}", s, 0);
      LitMiss("\"felt\": ", s, 1);
      LitPrefix("\"tsunami\": ", PropThen(tsunami, "}" + rest));
      PropRoundTrip(tsunami, "}" + rest);
      LitPrefix("}", rest);
    } else {
      var after := ", \"tsunami\": " + PropThen(tsunami, "}" + rest);
      LitMiss("}", s, 0);
      LitPrefix("\"felt\": ", PropThen(felt, after));
      PropRoundTrip(felt, after);
      LitMiss("}", after, 0);
      LitPrefix(", \"tsunami\": ", PropThen(tsunami, "}" + rest));
      PropRoundTrip(tsunami, "}" + rest);
      LitPrefix("}", rest);
    }
  }

  lemma FeatureRoundTrip(f: Feature, rest: string)
    ensures ParseFeature(FeatureThen(f, rest)) == Some((f, rest))
  {
    var tail := PropsThen(f.felt, f.tsunami, "}" + rest);
    var afterId := ", \"properties\": {" + tail;
    LitPrefix("{\"id\": ", QuoteThen(f.id, afterId));
    QuoteRoundTrip(f.id, afterId);
    LitPrefix(", \"properties\": {", tail);
    PropsRoundTrip(f.felt, f.tsunami, "}" + rest);
    LitPrefix("}", rest);
  }

  /** One step of the list parser: a feature written before a list tail the
      parser reads back is read back with it. */
  lemma FeaturesTailCons(f: Feature, u: string, fs: seq<Feature>, rest: string)
    requires ParseFeaturesTail(u) == Some((fs, rest))
    ensures ParseFeaturesTail(", " + FeatureThen(f, u)) == Some(([f] + fs, rest))
  {
    var t := FeatureThen(f, u);
    FeatureRoundTrip(f, u);
    LitMiss("]", ", " + t, 0);
    LitPrefix(", ", t);
  }

  lemma {:induction false} FeaturesTailRoundTrip(fs: seq<Feature>, rest: string)
    ensures ParseFeaturesTail(FeaturesTailThen(fs, rest)) == Some((fs, rest))
    decreases |fs|
  {
    if fs == [] {
      LitPrefix("]", rest);
    } else {
      var u := FeaturesTailThen(fs[1..], rest);
      FeaturesTailRoundTrip(fs[1..], rest);
      FeaturesTailCons(fs[0], u, fs[1..], rest);
      assert [fs[0]] + fs[1..] == fs;
    }
  }

  lemma FeaturesRoundTrip(fs: seq<Feature>, rest: string)
    ensures ParseFeatures(FeaturesThen(fs, rest)) == Some((fs, rest))
  {
    if fs == [] {
      LitPrefix("[", "]" + rest);
      LitPrefix("]", rest);
    } else {
      var t := FeatureThen(fs[0], FeaturesTailThen(fs[1..], rest));
      LitPrefix("[", t);
      LitMiss("]", t, 0);
      FeatureRoundTrip(fs[0], FeaturesTailThen(fs[1..], rest));
      FeaturesTailRoundTrip(fs[1..], rest);
      assert [fs[0]] + fs[1..] == fs;
    }
  }

  lemma MemberRoundTrip(p: (string, string), rest: string)
    ensures ParseMember(MemberThen(p, rest)) == Some((p, rest))
  {
    QuoteRoundTrip(p.0, ": " + QuoteThen(p.1, rest));
    LitPrefix(": ", QuoteThen(p.1, rest));
    QuoteRoundTrip(p.1, rest);
  }

  /** One step of the member-list parser: a member written before a tail the
      parser reads back is read back with it. */
  lemma MembersTailCons(p: (string, string), u: string, ps: Pairs, rest: string)
    requires ParseMembersTail(u) == Some((ps, rest))
    ensures ParseMembersTail(", " + MemberThen(p, u)) == Some(([p] + ps, rest))
  {
    var t := MemberThen(p, u);
    MemberRoundTrip(p, u);
    LitMiss("}", ", " + t, 0);
    LitPrefix(", ", t);
  }

  lemma {:induction false} MembersTailRoundTrip(ps: Pairs, rest: string)
    ensures ParseMembersTail(MembersTailThen(ps, rest)) == Some((ps, rest))
    decreases |ps|
  {
    if ps == [] {
      LitPrefix("}", rest);
    } else {
      var u := MembersTailThen(ps[1..], rest);
      MembersTailRoundTrip(ps[1..], rest);
      MembersTailCons(ps[0], u, ps[1..], rest);
      assert [ps[0]] + ps[1..] == ps;
    }
  }

  lemma PairsRoundTrip(ps: Pairs, rest: string)
    ensures ParsePairs(PairsThen(ps, rest)) == Some((ps, rest))
  {
    if ps == [] {
      LitPrefix("{", "}" + rest);
      LitPrefix("}", rest);
    } else {
      var t := MemberThen(ps[0], MembersTailThen(ps[1..], rest));
      LitPrefix("{", t);
      LitMiss("}", t, 0);
      MemberRoundTrip(ps[0], MembersTailThen(ps[1..], rest));
      MembersTailRoundTrip(ps[1..], rest);
      assert [ps[0]] + ps[1..] == ps;
    }
  }

  /** Decoding what was encoded gives back the collection. */
  lemma RoundTrip(c: Collection)
    ensures Decode(Encode(c)) == Some(c)
  {
    var featuresPart := ", \"features\": " + FeaturesThen(c.features, "}");
    var afterKind := MetadataThen(c.metadata, featuresPart);
    LitPrefix("{\"type\": ", QuoteThen(c.kind, afterKind));
    QuoteRoundTrip(c.kind, afterKind);
    if c.metadata.None? {
      LitMiss(", \"metadata\": ", featuresPart, 3);
    } else {
      LitPrefix(", \"metadata\": ", PairsThen(c.metadata.value, featuresPart));
      PairsRoundTrip(c.metadata.value, featuresPart);
    }
    LitPrefix(", \"features\": ", FeaturesThen(c.features, "}"));
    FeaturesRoundTrip(c.features, "}");
  }
}
