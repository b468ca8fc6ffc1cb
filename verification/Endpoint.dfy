/** Textual IP addresses (`util/endpoint.rs`). */
module Endpoint {
  import opened Std
  import opened Net
  import opened Text

  predicate LiteralChar(c: char) {
    IsDigit(c) || 'a' <= c <= 'f' || 'A' <= c <= 'F' || c == ':' || c == '.'
  }

  predicate Literal(s: string) {
    1 <= |s| <= 45 && forall i | 0 <= i < |s| :: LiteralChar(s[i])
  }

  /** `IpAddr::from_str` and `IpAddr::to_string`: whatever a literal parses to, normalized, is printed as a literal
      that parses to the same address. */
  datatype IpText = IpText(parse: string -> Option<Ip>, show: Ip -> string) {
    ghost predicate Ideal() {
      forall s | Literal(s) && parse(s).Some? ::
        var ip := Normalize(parse(s).value);
        Literal(show(ip)) && parse(show(ip)) == Some(ip)
    }
  }

  type IdealIpText = t: IpText | t.Ideal() witness IpText((s: string) => None, (ip: Ip) => "")

  const IP_TEXT: IdealIpText

  /** Accepts only literals of at most 45 characters, normalized. */
  function Parse(s: string): Option<Ip> {
    if !Literal(s) then None
    else
      var ip :- IP_TEXT.parse(s);
      Some(Normalize(ip))
  }

  /** One spelling per address; anything that is not a literal stays as it is. */
  function Normalized(address: string): string {
    match Parse(address) case None => address case Some(ip) => IP_TEXT.show(ip)
  }

  lemma NormalizedIsFixed(address: string)
    ensures Normalized(Normalized(address)) == Normalized(address)
    ensures Parse(Normalized(address)) == Parse(address)
  {
    match Parse(address)
    case None =>
    case Some(ip) =>
      assert IP_TEXT.parse(address).Some?;
  }

  /** An address is read from at most 45 digits, hexadecimal letters, colons and dots, exactly when the library reads it,
      and never as a mapped one. */
  lemma ParsesExactly(s: string, ip: Ip)
    ensures Parse(s) == Some(ip) <==>
              && 1 <= |s| <= 45
              && (forall i | 0 <= i < |s| ::
                    '0' <= s[i] <= '9' || 'a' <= s[i] <= 'f' || 'A' <= s[i] <= 'F' || s[i] in {':', '.'})
              && IP_TEXT.parse(s).Some? && ip == Normalize(IP_TEXT.parse(s).value)
  {
    hide Normalize;
  }

  lemma LiteralIsFree(s: string)
    requires Literal(s)
    ensures Free(s, {' ', '\r', '\n'})
  {
  }
}
