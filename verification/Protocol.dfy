/** Protocol versions, as they are sent, read and gated. */
module Protocol {
  import opened Wrappers
  import opened Texts

  /** A version field is a number or text; a number with a fraction is read from its own
      printed form, which is what it carries here. */
  datatype Version = Whole(number: int) | Fraction(printed: string) | Text(text: string)

  datatype Pair = Pair(major: int, minor: int)

  function ReadText(s: string): Option<Pair> {
    var dot := IndexOf(s, '.');
    if dot == |s| then
      match Read(s)
      case None => None
      case Some(major) => Some(Pair(major, 0))
    else
      match (Read(s[..dot]), Read(s[dot + 1..]))
      case (Some(major), Some(minor)) => Some(Pair(major, minor))
      case _ => None
  }

  /** None where the parser raises ValueError. */
  function ParseProtocolVersion(v: Version): Option<Pair> {
    match v
    case Whole(n) => Some(Pair(n, 0))
    case Fraction(printed) => ReadText(printed)
    case Text(s) => ReadText(s)
  }

  function FormatProtocolVersion(major: int, minor: int): Version {
    if minor == 0 then Whole(major) else Text(Show(major) + "." + Show(minor))
  }

  datatype Gate = Passes | BadFormat | WrongMajor | WrongMinor

  function Admit(v: Version, own: int): Gate {
    match ParseProtocolVersion(v)
    case None => BadFormat
    case Some(p) => if p.major != own then WrongMajor else if p.minor < 0 then WrongMinor else Passes
  }

  /** Every pair of integers survives the trip, through the number form and the dotted form. */
  lemma VersionRoundTrip(major: int, minor: int)
    ensures ParseProtocolVersion(FormatProtocolVersion(major, minor)) == Some(Pair(major, minor))
  {
    if minor != 0 {
      var a, b := Show(major), Show(minor);
      ShowRead(major);
      ShowRead(minor);
      ShowPlain(major);
      IndexOfJoin(a, '.', b);
      assert a + "." + b == a + ['.'] + b;
      assert (a + "." + b)[..|a|] == a && (a + "." + b)[|a| + 1..] == b;
    }
  }

  /** So two versions are written alike only if they are the same. */
  lemma VersionsAreDistinct(a: Pair, b: Pair)
    requires FormatProtocolVersion(a.major, a.minor) == FormatProtocolVersion(b.major, b.minor)
    ensures a == b
  {
    VersionRoundTrip(a.major, a.minor);
    VersionRoundTrip(b.major, b.minor);
  }

  /** A peer passes exactly if its major version is the server's own and its minor is not
      negative, whatever minor version the server itself is at. */
  lemma PeerPassesIff(major: int, minor: int, own: int)
    ensures Admit(FormatProtocolVersion(major, minor), own) == Passes <==> major == own && minor >= 0
  {
    VersionRoundTrip(major, minor);
  }

  /** A version without a minor part goes out as a number, any other as text with a dot. */
  lemma WrittenAsNumberIff(major: int, minor: int)
    ensures FormatProtocolVersion(major, minor) == Whole(major) <==> minor == 0
    ensures minor != 0 ==> FormatProtocolVersion(major, minor) == Text(Show(major) + "." + Show(minor))
  {
  }

  function Pairs(major: Option<int>, minor: Option<int>): Option<Pair> {
    if major.Some? && minor.Some? then Some(Pair(major.value, minor.value)) else None
  }

  /** Any text is read as two integers around its first dot, or as one integer if it has none; so text
      with two dots is no version. */
  lemma ReadAroundFirstDot(a: string, b: string)
    requires '.' !in a
    ensures ParseProtocolVersion(Text(a)) == Pairs(Read(a), Some(0))
    ensures ParseProtocolVersion(Text(a + "." + b)) == Pairs(Read(a), Read(b))
    ensures ParseProtocolVersion(Fraction(a + "." + b)) == Pairs(Read(a), Read(b))
    ensures '.' in b ==> ParseProtocolVersion(Text(a + "." + b)).None?
  {
    IndexOfJoin(a, '.', b);
    assert a + "." + b == a + ['.'] + b;
    assert (a + "." + b)[..|a|] == a && (a + "." + b)[|a| + 1..] == b;
    assert IndexOf(a, '.') == |a|;
    if '.' in b && Read(b).Some? { ReadHasOnly(b, '.'); }
  }

  /** Why any version at all is turned away. */
  lemma AdmitsIff(v: Version, own: int)
    ensures Admit(v, own) == BadFormat <==> ParseProtocolVersion(v).None?
    ensures Admit(v, own) == Passes <==>
              exists minor: int :: minor >= 0 && ParseProtocolVersion(v) == Some(Pair(own, minor))
    ensures Admit(v, own) == WrongMinor <==>
              exists minor: int :: minor < 0 && ParseProtocolVersion(v) == Some(Pair(own, minor))
  {
    if ParseProtocolVersion(v).Some? {
      var p := ParseProtocolVersion(v).value;
      if p.major == own { assert ParseProtocolVersion(v) == Some(Pair(own, p.minor)); }
    }
  }
}
