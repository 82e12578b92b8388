/**
 Session-Ids in the form section 8.8 of RFC 6733 recommends, and the shorter
 session ids used inside the gateway. Strings are byte strings with ASCII text.
 */
module SessionId {
  import opened Prelude
  import opened Text

  predicate HasImsiPrefix(s: string)
  {
    "IMSI" <= s
  }

  /** identity;high;low;IMSI... : what DecodeSessionID recognises. */
  predicate Encoded(sid: string)
  {
    var parts := Split(sid, ';');
    |parts| >= 4 && HasImsiPrefix(parts[|parts| - 1])
  }

  function DecodeSessionID(sid: string): string
  {
    var parts := Split(sid, ';');
    var n := |parts|;
    if Encoded(sid) then parts[n - 1] + "-" + parts[n - 3] + parts[n - 2] else sid
  }

  /** IMSI...-... : what EncodeSessionID recognises. */
  predicate Local(sid: string)
  {
    var parts := Split(sid, '-');
    |parts| > 1 && HasImsiPrefix(parts[0])
  }

  /** Four fields, as a Session-Id writes them. */
  function Four(a: string, b: string, c: string, d: string): string
  {
    a + ";" + b + ";" + c + ";" + d
  }

  function EncodeSessionID(identity: string, sid: string): string
  {
    var parts := Split(sid, '-');
    if Local(sid) then
      var half := |parts[1]| / 2;
      Four(identity, parts[1][..half], parts[1][half..], parts[0])
    else sid
  }

  // Encoding and decoding

  /** A string made of four separated fields splits into the first one's parts and the other three. */
  lemma FourFields(a: string, b: string, c: string, d: string)
    requires ';' !in b && ';' !in c && ';' !in d
    ensures Split(Four(a, b, c, d), ';') == Split(a, ';') + [b, c, d]
  {
    var ab := a + [';'] + b;
    var abc := ab + [';'] + c;
    assert Four(a, b, c, d) == abc + [';'] + d;
    AddField(a, b);
    AddField(ab, c);
    AddField(abc, d);
  }

  lemma AddField(a: string, b: string)
    requires ';' !in b
    ensures Split(a + [';'] + b, ';') == Split(a, ';') + [b]
  {
    SplitConcat(a, ';', b);
    SplitWhole(b, ';');
  }

  lemma LocalParts(x: string, r: string)
    requires '-' !in x && '-' !in r && HasImsiPrefix(x)
    ensures Split(x + "-" + r, '-') == [x, r] && Local(x + "-" + r)
  {
    assert x + "-" + r == x + ['-'] + r;
    SplitConcat(x, '-', r);
    SplitWhole(x, '-');
    SplitWhole(r, '-');
  }

  lemma {:induction false} SplitStart(s: string, sep: char)
    ensures Split(s, sep)[0] <= s
    ensures sep in s ==> Split(s, sep)[0] + [sep] <= s
  {
    if s != "" {
      SplitStart(s[1..], sep);
    }
  }

  // What each function does to every string

  /** Behind any host, two fields and an IMSI field become the short form. */
  lemma DecodeFields(host: string, r1: string, r2: string, x: string)
    requires ';' !in r1 && ';' !in r2 && ';' !in x && "IMSI" <= x
    ensures DecodeSessionID(host + ";" + r1 + ";" + r2 + ";" + x) == x + "-" + r1 + r2
  {
    FourFields(host, r1, r2, x);
  }

  /** Any other string is returned unchanged. */
  lemma DecodeKeepsOthers(sid: string)
    requires |Split(sid, ';')| < 4 || !("IMSI" <= Split(sid, ';')[|Split(sid, ';')| - 1])
    ensures DecodeSessionID(sid) == sid
  {
  }

  /** The part behind the first '-' is halved into two fields; what follows a second '-' is dropped. */
  lemma EncodeFields(identity: string, x: string, r: string, rest: string)
    requires '-' !in x && "IMSI" <= x && '-' !in r && (rest == "" || rest[0] == '-')
    ensures EncodeSessionID(identity, x + "-" + r + rest) ==
            identity + ";" + r[..|r| / 2] + ";" + r[|r| / 2..] + ";" + x
  {
    var sid := x + "-" + r + rest;
    assert sid == x + ['-'] + (r + rest);
    SplitConcat(x, '-', r + rest);
    SplitWhole(x, '-');
    FirstPart(r, rest);
  }

  lemma FirstPart(r: string, rest: string)
    requires '-' !in r && (rest == "" || rest[0] == '-')
    ensures Split(r + rest, '-')[0] == r
  {
    SplitWhole(r, '-');
    if rest == "" {
      assert r + rest == r;
    } else {
      assert r + rest == r + ['-'] + rest[1..];
      SplitConcat(r, '-', rest[1..]);
    }
  }

  /** A string that does not start with IMSI or holds no '-' is returned unchanged, encoded ids among them. */
  lemma EncodeKeepsOthers(identity: string, sid: string)
    requires !("IMSI" <= sid) || '-' !in sid
    ensures EncodeSessionID(identity, sid) == sid
  {
    SplitStart(sid, '-');
    assert Split(sid, '-')[0] <= sid;
  }

  /** Encoding what was encoded changes nothing, unless the identity itself looks like an IMSI. */
  lemma EncodeIsIdempotent(identity: string, identity': string, sid: string)
    requires !("IMSI" <= identity)
    ensures EncodeSessionID(identity', EncodeSessionID(identity, sid)) == EncodeSessionID(identity, sid)
  {
    if Local(sid) {
      var enc := EncodeSessionID(identity, sid);
      StartsWithIdentity(identity, enc[|identity| + 1..]);
      assert enc == identity + ";" + enc[|identity| + 1..];
      EncodeKeepsOthers(identity', enc);
      EncodeKeepsOthers(identity, enc);
    }
  }

  lemma StartsWithIdentity(identity: string, rest: string)
    requires !("IMSI" <= identity)
    ensures !("IMSI" <= identity + ";" + rest)
  {
    var s := identity + ";" + rest;
    assert |identity| < 4 ==> s[|identity|] == ';' && "IMSI"[|identity|] != ';';
    assert |identity| >= 4 ==> s[..4] == identity[..4];
  }

  /** Session ids that survive EncodeSessionID followed by DecodeSessionID. */
  predicate Survives(sid: string)
  {
    if Local(sid) then |Split(sid, '-')| == 2 && ';' !in sid else !Encoded(sid)
  }

  /** A decoded session id holds no ';', so it differs from what it was decoded from. */
  lemma DecodedHasNoSemicolon(sid: string)
    requires Encoded(sid)
    ensures ';' !in DecodeSessionID(sid) && ';' in sid
  {
  }

  lemma {:induction false} SplitTwo(s: string, sep: char)
    requires |Split(s, sep)| == 2
    ensures s == Split(s, sep)[0] + [sep] + Split(s, sep)[1]
  {
    if s[0] == sep {
      SplitWhole(s[1..], sep);
    } else {
      SplitTwo(s[1..], sep);
    }
  }

  /** The parts of a split contain no character the string does not. */
  lemma {:induction false} PartsLack(s: string, sep: char, c: char, i: nat)
    requires c !in s && i < |Split(s, sep)|
    ensures c !in Split(s, sep)[i]
  {
    if s != "" {
      var rest := Split(s[1..], sep);
      if s[0] == sep {
        if i > 0 { PartsLack(s[1..], sep, c, i - 1); }
      } else {
        PartsLack(s[1..], sep, c, i);
      }
    }
  }

  /** Without ';', what comes back is the first two parts. */
  lemma EncodeDecode(identity: string, sid: string)
    requires Local(sid) && ';' !in sid
    ensures var parts := Split(sid, '-');
            DecodeSessionID(EncodeSessionID(identity, sid)) == parts[0] + "-" + parts[1]
  {
    var parts := Split(sid, '-');
    var r := parts[1];
    var half := |r| / 2;
    PartsLack(sid, '-', ';', 0);
    PartsLack(sid, '-', ';', 1);
    FourFields(identity, r[..half], r[half..], parts[0]);
    Rejoin(parts[0], r, half);
  }

  lemma Rejoin(x: string, r: string, half: nat)
    requires half <= |r|
    ensures x + "-" + r[..half] + r[half..] == x + "-" + r
  {
    assert r[..half] + r[half..] == r;
  }

  /** Encoding then decoding gives the session id back, under every identity. */
  ghost predicate RoundTrips(sid: string)
  {
    forall identity :: DecodeSessionID(EncodeSessionID(identity, sid)) == sid
  }

  /**
   Encoding then decoding gives the session id back, under every identity, even
   one holding ';', exactly for the ids in Survives.
   */
  lemma RoundTripIff(sid: string)
    ensures RoundTrips(sid) <==> Survives(sid)
  {
    if Survives(sid) {
      forall identity
        ensures DecodeSessionID(EncodeSessionID(identity, sid)) == sid
      {
        if Local(sid) {
          SplitTwo(sid, '-');
          EncodeDecode(identity, sid);
        }
      }
    } else {
      DoesNotSurvive(sid);
      assert DecodeSessionID(EncodeSessionID("", sid)) != sid;
    }
  }

  lemma DoesNotSurvive(sid: string)
    requires !Survives(sid)
    ensures DecodeSessionID(EncodeSessionID("", sid)) != sid
  {
    if !Local(sid) {
      DecodedHasNoSemicolon(sid);
    } else if ';' in sid {
      SemicolonIsLost(sid);
    } else {
      EncodeDecode("", sid);
      var parts := Split(sid, '-');
      LocalParts(parts[0], parts[1]);
    }
  }

  lemma SemicolonIsLost(sid: string)
    requires Local(sid) && ';' in sid
    ensures DecodeSessionID(EncodeSessionID("", sid)) != sid
  {
    var enc := EncodeSessionID("", sid);
    if Encoded(enc) {
      DecodedHasNoSemicolon(enc);
    } else {
      assert enc[0] == ';';
      SplitStart(sid, '-');
      assert sid[0] == 'I';
    }
  }

  /** The form the documentation gives, IMSIxyz-rand, always survives. */
  lemma MagmaSessionIdsSurvive(identity: string, x: string, r: string)
    requires '-' !in x && ';' !in x && '-' !in r && ';' !in r
    ensures DecodeSessionID(EncodeSessionID(identity, "IMSI" + x + "-" + r)) == "IMSI" + x + "-" + r
  {
    var sid := "IMSI" + x + "-" + r;
    LocalParts("IMSI" + x, r);
    EncodeDecode(identity, sid);
  }

  lemma JoinedSurvivesIff(x: string, r: string)
    requires HasImsiPrefix(x) && ';' !in x && ';' !in r
    ensures Survives(x + ['-'] + r) <==> '-' !in x && '-' !in r
  {
    LocalWithPrefix(x, r);
    SplitConcat(x, '-', r);
  }

  lemma JoinedIsStableIff(d: string, x: string, a: string, b: string)
    requires d == x + "-" + a + b
    requires HasImsiPrefix(x) && ';' !in x && ';' !in a && ';' !in b
    ensures RoundTrips(d) <==> '-' !in x && '-' !in a && '-' !in b
  {
    assert d == x + ['-'] + (a + b);
    JoinedSurvivesIff(x, a + b);
    RoundTripIff(d);
  }

  /** Decoding is a stable normal form exactly when the decoded parts hold no '-'. */
  lemma DecodedIsStableIff(sid: string)
    requires Encoded(sid)
    ensures var parts := Split(sid, ';');
            var n := |parts|;
            RoundTrips(DecodeSessionID(sid)) <==> '-' !in parts[n - 1] && '-' !in parts[n - 3] && '-' !in parts[n - 2]
  {
    var parts := Split(sid, ';');
    var n := |parts|;
    JoinedIsStableIff(DecodeSessionID(sid), parts[n - 1], parts[n - 3], parts[n - 2]);
  }

  /** Anything IMSI...-... is recognised unless the prefix itself is cut, which it cannot be. */
  lemma LocalWithPrefix(x: string, r: string)
    requires HasImsiPrefix(x)
    ensures Local(x + ['-'] + r)
  {
    SplitConcat(x, '-', r);
    assert x == "IMSI" + x[4..];
    PrefixStays("IMSI", x[4..], '-');
  }

  /** A start without the separator stays in the first part. */
  lemma {:induction false} PrefixStays(p: string, rest: string, sep: char)
    requires sep !in p
    ensures Split(p + rest, sep)[0] == p + Split(rest, sep)[0]
  {
    if p == "" {
      assert p + rest == rest;
    } else {
      assert (p + rest)[1..] == p[1..] + rest;
      PrefixStays(p[1..], rest, sep);
    }
  }

  // Parsing

  predicate IsSpace(c: char)
  {
    c == ' ' || ('\t' as int <= c as int <= '\r' as int)
  }

  /** strings.TrimSpace on ASCII text. */
  function TrimSpace(s: string): string
    decreases |s|
  {
    if s != "" && IsSpace(s[0]) then TrimSpace(s[1..])
    else if s != "" && IsSpace(s[|s| - 1]) then TrimSpace(s[..|s| - 1])
    else s
  }

  predicate ValidImsi(s: string)
  {
    10 <= |s| <= 16 && AllDigits(s)
  }

  function ImsiOf(sid: string): Result<string>
  {
    var parts := Split(sid, ';');
    var last := TrimSpace(parts[|parts| - 1]);
    if |parts| > 1 && HasImsiPrefix(last) && ValidImsi(last[4..]) then Ok(last[4..]) else Err
  }

  /** The error result also carries the unchanged session id, which is not modelled. */
  method ExtractImsiFromSessionID(sid: string) returns (r: Result<string>)
    ensures r == ImsiOf(sid)
    ensures r.Ok? ==> ValidImsi(r.value)
  {
    var split := Split(sid, ';');
    var n1 := |split| - 1;
    if n1 > 0 {
      var imsi := TrimSpace(split[n1]);
      if HasImsiPrefix(imsi) {
        imsi := imsi[4..];
        if |imsi| < 10 || |imsi| > 16 {
          return Err;
        }
        for p := 0 to |imsi|
          invariant AllDigits(imsi[..p])
        {
          if imsi[p] < '0' || imsi[p] > '9' {
            assert imsi[p] in imsi;
            return Err;
          }
        }
        assert imsi[..|imsi|] == imsi;
        return Ok(imsi);
      }
    }
    return Err;
  }

  predicate AllSpaces(s: string)
  {
    forall c <- s :: c == ' ' || c == '\t' || c == '\n' || c == '\U{000B}' || c == '\U{000C}' || c == '\r'
  }

  lemma SpacesInside(s: string, lo: nat, hi: nat)
    requires AllSpaces(s) && lo <= hi <= |s|
    ensures AllSpaces(s[lo..hi]) && AllSpaces(s[lo..]) && AllSpaces(s[..hi])
  {
    assert forall c <- s[lo..hi] :: c in s;
    assert forall c <- s[lo..] :: c in s;
    assert forall c <- s[..hi] :: c in s;
  }

  /** Trimming takes away the spaces around, and nothing else. */
  lemma {:induction false} TrimRemoves(pre: string, core: string, post: string)
    requires AllSpaces(pre) && AllSpaces(post)
    requires core != "" && !IsSpace(core[0]) && !IsSpace(core[|core| - 1])
    ensures TrimSpace(pre + core + post) == core
    decreases |pre|, |post|
  {
    var s := pre + core + post;
    if pre != "" {
      assert s[1..] == pre[1..] + core + post && pre[0] in pre;
      SpacesInside(pre, 1, |pre|);
      TrimRemoves(pre[1..], core, post);
    } else if post != "" {
      assert s[..|s| - 1] == pre + core + post[..|post| - 1] && post[|post| - 1] in post;
      SpacesInside(post, 0, |post| - 1);
      TrimRemoves(pre, core, post[..|post| - 1]);
    } else {
      assert s == core;
    }
  }

  lemma {:induction false} TrimSplits(s: string) returns (pre: string, post: string)
    ensures AllSpaces(pre) && AllSpaces(post) && s == pre + TrimSpace(s) + post
    decreases |s|
  {
    if s != "" && IsSpace(s[0]) {
      pre, post := TrimSplits(s[1..]);
      pre := [s[0]] + pre;
    } else if s != "" && IsSpace(s[|s| - 1]) {
      pre, post := TrimSplits(s[..|s| - 1]);
      post := post + [s[|s| - 1]];
    } else {
      pre, post := "", "";
    }
  }

  /** A last field that is IMSI and 10 to 16 digits, with spaces around, is accepted behind any other fields. */
  lemma ImsiIsExtracted(head: string, pre: string, imsi: string, post: string)
    requires AllSpaces(pre) && AllSpaces(post) && 10 <= |imsi| <= 16 && AllDigits(imsi)
    ensures ImsiOf(head + ";" + pre + "IMSI" + imsi + post) == Ok(imsi)
  {
    var core := "IMSI" + imsi;
    var last := pre + core + post;
    assert imsi[|imsi| - 1] in imsi;
    TrimRemoves(pre, core, post);
    DigitsLack(imsi, ';');
    SplitConcat(head, ';', last);
    SplitWhole(last, ';');
    assert head + ";" + pre + "IMSI" + imsi + post == head + [';'] + last;
    assert core[4..] == imsi;
  }

  /** And nothing else is. */
  lemma ExtractedIsImsi(sid: string)
    requires ImsiOf(sid).Ok?
    ensures exists head, pre, post :: ImsiForm(sid, head, pre, ImsiOf(sid).value, post)
  {
    var head := SplitLast(sid, ';');
    var last := Split(sid, ';')[|Split(sid, ';')| - 1];
    var pre, post := TrimSplits(last);
    var core := TrimSpace(last);
    assert core == "IMSI" + core[4..];
    assert ImsiForm(sid, head, pre, core[4..], post);
  }

  predicate ImsiForm(sid: string, head: string, pre: string, imsi: string, post: string)
  {
    && AllSpaces(pre) && AllSpaces(post) && 10 <= |imsi| <= 16 && AllDigits(imsi)
    && sid == head + ";" + (pre + ("IMSI" + imsi) + post)
  }

  lemma {:induction false} SplitLast(s: string, sep: char) returns (head: string)
    requires |Split(s, sep)| > 1
    ensures s == head + [sep] + Split(s, sep)[|Split(s, sep)| - 1]
  {
    if |Split(s[1..], sep)| > 1 {
      head := SplitLast(s[1..], sep);
      head := [s[0]] + head;
    } else {
      SplitWhole(s[1..], sep);
      head := "";
    }
  }

  function TrimImsi(s: string): string
  {
    if HasImsiPrefix(s) then s[4..] else s
  }

  datatype Parsed = Parsed(host: string, rnd1: string, rnd2: string, imsi: string, bearerId: string)

  function ParseDiamSessionID(sid: string): Parsed
  {
    var parts := Split(sid, ';');
    var l := |parts|;
    var t := if l >= 4 then Split(TrimImsi(parts[3]), '_') else [""];
    Parsed(parts[0],
           if l >= 2 then parts[1] else "",
           if l >= 3 then parts[2] else "",
           t[0],
           if |t| > 1 then t[1] else "")
  }

  /** The four fields of a Session-Id that ends in an IMSI. */
  lemma ImsiFields(host: string, r1: string, r2: string, imsi: string)
    requires ';' !in host && ';' !in r1 && ';' !in r2 && ValidImsi(imsi)
    ensures Split(Four(host, r1, r2, "IMSI" + imsi), ';') == [host, r1, r2, "IMSI" + imsi]
    ensures ("IMSI" + imsi)[4..] == imsi && HasImsiPrefix("IMSI" + imsi)
  {
    DigitsLack(imsi, ';');
    FourFields(host, r1, r2, "IMSI" + imsi);
    SplitWhole(host, ';');
  }

  lemma NothingToTrim(imsi: string)
    requires ValidImsi(imsi)
    ensures TrimSpace("IMSI" + imsi) == "IMSI" + imsi
  {
    assert imsi[|imsi| - 1] in imsi;
  }

  lemma ExtractAgrees(host: string, r1: string, r2: string, imsi: string)
    requires ';' !in host && ';' !in r1 && ';' !in r2 && ValidImsi(imsi)
    ensures ImsiOf(Four(host, r1, r2, "IMSI" + imsi)) == Ok(imsi)
  {
    ImsiFields(host, r1, r2, imsi);
    NothingToTrim(imsi);
  }

  lemma ParseAgrees(host: string, r1: string, r2: string, imsi: string)
    requires ';' !in host && ';' !in r1 && ';' !in r2 && ValidImsi(imsi)
    ensures ParseDiamSessionID(Four(host, r1, r2, "IMSI" + imsi)) == Parsed(host, r1, r2, imsi, "")
  {
    ImsiFields(host, r1, r2, imsi);
    DigitsLack(imsi, '_');
    SplitWhole(imsi, '_');
  }

  /** The last field is read as IMSI and bearer id. */
  lemma ParseReadsBearer(host: string, r1: string, r2: string, x: string, b: string)
    requires ';' !in host && ';' !in r1 && ';' !in r2 && ';' !in x && ';' !in b && '_' !in x && '_' !in b
    ensures ParseDiamSessionID(Four(host, r1, r2, "IMSI" + (x + "_" + b))) == Parsed(host, r1, r2, x, b)
  {
    var xb := x + "_" + b;
    BearerParts(x, b);
    ParseLast(host, r1, r2, "IMSI" + xb);
    assert ("IMSI" + xb)[4..] == xb;
  }

  /** The prefix may be missing. */
  lemma ParseNeedsNoPrefix(host: string, r1: string, r2: string, x: string, b: string)
    requires ';' !in host && ';' !in r1 && ';' !in r2 && ';' !in x && ';' !in b && '_' !in x && '_' !in b
    requires !("IMSI" <= x + "_" + b)
    ensures ParseDiamSessionID(Four(host, r1, r2, x + "_" + b)) == Parsed(host, r1, r2, x, b)
  {
    BearerParts(x, b);
    ParseLast(host, r1, r2, x + "_" + b);
  }

  lemma BearerParts(x: string, b: string)
    requires '_' !in x && '_' !in b
    ensures Split(x + "_" + b, '_') == [x, b]
  {
    assert x + "_" + b == x + ['_'] + b;
    SplitConcat(x, '_', b);
    SplitWhole(x, '_');
    SplitWhole(b, '_');
  }

  lemma ParseLast(host: string, r1: string, r2: string, last: string)
    requires ';' !in host && ';' !in r1 && ';' !in r2 && ';' !in last
    ensures var t := Split(TrimImsi(last), '_');
            ParseDiamSessionID(Four(host, r1, r2, last)) == Parsed(host, r1, r2, t[0], if |t| > 1 then t[1] else "")
  {
    FourFields(host, r1, r2, last);
    SplitWhole(host, ';');
  }

  /** Fields that are missing are read as empty. */
  lemma ParseReadsFewer(host: string, r1: string, r2: string)
    requires ';' !in host && ';' !in r1 && ';' !in r2
    ensures ParseDiamSessionID(host) == Parsed(host, "", "", "", "")
    ensures ParseDiamSessionID(host + ";" + r1) == Parsed(host, r1, "", "", "")
    ensures ParseDiamSessionID(host + ";" + r1 + ";" + r2) == Parsed(host, r1, r2, "", "")
  {
    SplitWhole(host, ';');
    AddField(host, r1);
    AddField(host + [';'] + r1, r2);
    assert host + ";" + r1 == host + [';'] + r1;
    assert host + ";" + r1 + ";" + r2 == host + [';'] + r1 + [';'] + r2;
    SplitWhole("", '_');
  }

  lemma DecodeAgrees(host: string, r1: string, r2: string, imsi: string)
    requires ';' !in host && ';' !in r1 && ';' !in r2 && ValidImsi(imsi)
    ensures DecodeSessionID(Four(host, r1, r2, "IMSI" + imsi)) == "IMSI" + imsi + "-" + r1 + r2
  {
    ImsiFields(host, r1, r2, imsi);
  }

  /** On host;r1;r2;IMSI<imsi> both parsers give the same IMSI, and the rest is recovered. */
  lemma ParsersAgree(host: string, r1: string, r2: string, imsi: string)
    requires ';' !in host && ';' !in r1 && ';' !in r2 && ValidImsi(imsi)
    ensures var sid := Four(host, r1, r2, "IMSI" + imsi);
            && ImsiOf(sid) == Ok(imsi)
            && ParseDiamSessionID(sid) == Parsed(host, r1, r2, imsi, "")
            && DecodeSessionID(sid) == "IMSI" + imsi + "-" + r1 + r2
  {
    ExtractAgrees(host, r1, r2, imsi);
    ParseAgrees(host, r1, r2, imsi);
    DecodeAgrees(host, r1, r2, imsi);
  }

  /** Both parsers recover the IMSI of every encoded session id. */
  lemma ParsersReadEncoded(identity: string, imsi: string, r: string)
    requires ';' !in identity && ValidImsi(imsi) && '-' !in r && ';' !in r
    ensures var sid := EncodeSessionID(identity, "IMSI" + imsi + "-" + r);
            && ImsiOf(sid) == Ok(imsi)
            && ParseDiamSessionID(sid) == Parsed(identity, r[..|r| / 2], r[|r| / 2..], imsi, "")
  {
    DigitsLack(imsi, '-');
    LocalParts("IMSI" + imsi, r);
    ParsersAgree(identity, r[..|r| / 2], r[|r| / 2..], imsi);
  }

  // Generation

  /** The clock word spread over 64 bits: uint(nano<<32) ^ uint(nano). */
  function Spread(nano: bv64): bv64
  {
    (nano << 32) ^ nano
  }

  function HostOf(identity: string, protocol: string): string
  {
    var id := if identity == "" then "magma" else identity;
    if protocol != "" then id + "-" + protocol else id
  }

  /** `nano` is the clock reading and `rnd` a 32-bit random number. */
  function GenSessionIDOpt(identity: string, protocol: string, opt: string, nano: bv64, rnd: bv32): string
  {
    Four(HostOf(identity, protocol), Decimal(Spread(nano) as nat), Decimal(rnd as nat), opt)
  }

  function GenSessionIdImsi(identity: string, protocol: string, imsi: string, nano: bv64, rnd: bv32): string
  {
    Four(HostOf(identity, protocol), Decimal(Spread(nano) as nat), Decimal(rnd as nat), "IMSI" + imsi)
  }

  /**
   A generated id is the host, the spread clock word, the random word and the
   trailing value; a ';' in the host or the trailing value splits those only.
   */
  lemma GeneratedFields(identity: string, protocol: string, opt: string, nano: bv64, rnd: bv32)
    ensures var id := if identity == "" then "magma" else identity;
            var host := Split(if protocol == "" then id else id + "-" + protocol, ';');
            var parts := Split(GenSessionIDOpt(identity, protocol, opt, nano, rnd), ';');
            var n := |host|;
            && |parts| > n + 2 && parts[..n] == host && parts[n + 2..] == Split(opt, ';')
            && AllDigits(parts[n]) && DecimalValue(parts[n]) == Spread(nano) as nat
            && AllDigits(parts[n + 1]) && DecimalValue(parts[n + 1]) == rnd as nat
  {
    DecimalReadsBack(Spread(nano) as nat);
    DecimalReadsBack(rnd as nat);
    NumberedFields(HostOf(identity, protocol), Spread(nano) as nat, rnd as nat, opt);
  }

  lemma NumberedHead(host: string, m: string, n: string)
    requires ';' !in m && ';' !in n
    ensures Split(host + [';'] + m + [';'] + n, ';') == Split(host, ';') + [m, n]
  {
    AddField(host, m);
    AddField(host + [';'] + m, n);
  }

  lemma NumberedFields(host: string, m: nat, n: nat, opt: string)
    ensures Split(Four(host, Decimal(m), Decimal(n), opt), ';') == Split(host, ';') + [Decimal(m), Decimal(n)] + Split(opt, ';')
  {
    var head := host + [';'] + Decimal(m) + [';'] + Decimal(n);
    DigitsLack(Decimal(m), ';');
    DigitsLack(Decimal(n), ';');
    NumberedHead(host, Decimal(m), Decimal(n));
    SplitConcat(head, ';', opt);
    assert Four(host, Decimal(m), Decimal(n), opt) == head + [';'] + opt;
  }

  const UINT32_LIMIT: nat := 0x1_0000_0000

  lemma EqualHalvesCancel(nano: bv64)
    requires nano >> 32 == nano & 0xFFFF_FFFF
    ensures Spread(nano) < 0x1_0000_0000
  {
  }

  lemma CancelledHalvesAreEqual(nano: bv64)
    requires Spread(nano) < 0x1_0000_0000
    ensures nano >> 32 == nano & 0xFFFF_FFFF
  {
  }

  lemma WidenedWord(a: bv32)
    ensures (a as bv64) as nat == a as nat
  {
  }

  lemma WidenedIsSmall(a: bv64, b: bv32)
    requires a == b as bv64
    ensures a as nat < UINT32_LIMIT
  {
    WidenedWord(b);
  }

  lemma SmallWord(a: bv64)
    requires a < 0x1_0000_0000
    ensures a as nat < UINT32_LIMIT
  {
    NarrowedWord(a);
    WidenedIsSmall(a, a as bv32);
  }

  lemma NarrowedWord(a: bv64)
    requires a < 0x1_0000_0000
    ensures (a as bv32) as bv64 == a
  {
  }

  lemma LargeWord(a: bv64)
    requires a >= 0x1_0000_0000
    ensures a as nat >= UINT32_LIMIT
  {
  }

  /** The clock word's field fits in 32 bits iff the two halves of the clock reading are equal. */
  lemma ClockFieldFitsIff(nano: bv64)
    ensures Spread(nano) as nat < UINT32_LIMIT <==> nano >> 32 == nano & 0xFFFF_FFFF
  {
    if nano >> 32 == nano & 0xFFFF_FFFF {
      EqualHalvesCancel(nano);
      SmallWord(Spread(nano));
    } else {
      if Spread(nano) < 0x1_0000_0000 {
        CancelledHalvesAreEqual(nano);
      }
      LargeWord(Spread(nano));
    }
  }

  /** In the id: the field documented as the high 32 bits is one only for such clock readings. */
  lemma GeneratedClockFieldFitsIff(identity: string, protocol: string, opt: string, nano: bv64, rnd: bv32)
    ensures var parts := Split(GenSessionIDOpt(identity, protocol, opt, nano, rnd), ';');
            var n := |Split(HostOf(identity, protocol), ';')|;
            && |parts| > n + 1 && AllDigits(parts[n]) && AllDigits(parts[n + 1])
            && (DecimalValue(parts[n]) < UINT32_LIMIT <==> nano >> 32 == nano & 0xFFFF_FFFF)
            && DecimalValue(parts[n + 1]) < UINT32_LIMIT
  {
    GeneratedFields(identity, protocol, opt, nano, rnd);
    ClockFieldFitsIff(nano);
  }

  /** A clock reading of one nanosecond already gives a field beyond 32 bits. */
  lemma ClockFieldOverflows()
    ensures Spread(1) as nat == 0x1_0000_0001 && Spread(1) as nat >= UINT32_LIMIT
  {
    assert Spread(1) == 0x1_0000_0001;
  }

  /** The low half of the clock word stays, the high half is xor-ed with it. */
  lemma SpreadHalves(nano: bv64)
    ensures Spread(nano) & 0xFFFF_FFFF == nano & 0xFFFF_FFFF
    ensures Spread(nano) >> 32 == (nano >> 32) ^ (nano & 0xFFFF_FFFF)
  {
  }

  /** Spread is its own inverse, hence a bijection on 64-bit words. */
  lemma SpreadInverse(nano: bv64)
    ensures Spread(Spread(nano)) == nano
  {
  }

  lemma Bv64ReadsBack(a: bv64)
    ensures (a as nat) as bv64 == a
  {
  }

  lemma Bv32ReadsBack(a: bv32)
    ensures (a as nat) as bv32 == a
  {
  }

  /** Behind a fixed host, two ';'-free fields and any third one can be read off. */
  lemma FieldsUnique(host: string, t1: string, d1: string, o1: string, t2: string, d2: string, o2: string)
    requires ';' !in t1 && ';' !in d1 && ';' !in t2 && ';' !in d2
    requires Four(host, t1, d1, o1) == Four(host, t2, d2, o2)
    ensures t1 == t2 && d1 == d2 && o1 == o2
  {
    var tail1, tail2 := d1 + [';'] + o1, d2 + [';'] + o2;
    var g1, g2 := Four(host, t1, d1, o1), Four(host, t2, d2, o2);
    assert g1[|host| + 1..] == t1 + [';'] + tail1;
    assert g2[|host| + 1..] == t2 + [';'] + tail2;
    HeadUnique(t1, tail1, t2, tail2, ';');
    HeadUnique(d1, o1, d2, o2, ';');
  }

  /** For a fixed identity and protocol a generated id determines clock, random word and trailing value. */
  lemma GenerationIsInjective(identity: string, protocol: string,
                              opt1: string, nano1: bv64, rnd1: bv32, opt2: string, nano2: bv64, rnd2: bv32)
    requires GenSessionIDOpt(identity, protocol, opt1, nano1, rnd1) == GenSessionIDOpt(identity, protocol, opt2, nano2, rnd2)
    ensures opt1 == opt2 && nano1 == nano2 && rnd1 == rnd2
  {
    var t1, t2 := Decimal(Spread(nano1) as nat), Decimal(Spread(nano2) as nat);
    var d1, d2 := Decimal(rnd1 as nat), Decimal(rnd2 as nat);
    DigitsLack(t1, ';');
    DigitsLack(t2, ';');
    DigitsLack(d1, ';');
    DigitsLack(d2, ';');
    FieldsUnique(HostOf(identity, protocol), t1, d1, opt1, t2, d2, opt2);
    WordsAreEqual(nano1, nano2, rnd1, rnd2);
  }

  lemma WordsAreEqual(nano1: bv64, nano2: bv64, rnd1: bv32, rnd2: bv32)
    requires Decimal(Spread(nano1) as nat) == Decimal(Spread(nano2) as nat)
    requires Decimal(rnd1 as nat) == Decimal(rnd2 as nat)
    ensures nano1 == nano2 && rnd1 == rnd2
  {
    DecimalInjective(Spread(nano1) as nat, Spread(nano2) as nat);
    DecimalInjective(rnd1 as nat, rnd2 as nat);
    Bv64ReadsBack(Spread(nano1));
    Bv64ReadsBack(Spread(nano2));
    Bv32ReadsBack(rnd1);
    Bv32ReadsBack(rnd2);
    SpreadInverse(nano1);
    SpreadInverse(nano2);
  }

  /** Both parsers read generated ids, and decoding one gives the gateway's short form. */
  lemma ParsersReadGenerated(identity: string, protocol: string, imsi: string, nano: bv64, rnd: bv32)
    requires ';' !in identity && ';' !in protocol && ValidImsi(imsi)
    ensures var sid := GenSessionIdImsi(identity, protocol, imsi, nano, rnd);
            var ts, r := Decimal(Spread(nano) as nat), Decimal(rnd as nat);
            && ImsiOf(sid) == Ok(imsi)
            && ParseDiamSessionID(sid) == Parsed(HostOf(identity, protocol), ts, r, imsi, "")
            && DecodeSessionID(sid) == "IMSI" + imsi + "-" + ts + r
  {
    var ts, r := Decimal(Spread(nano) as nat), Decimal(rnd as nat);
    DigitsLack(ts, ';');
    DigitsLack(r, ';');
    assert ';' !in HostOf(identity, protocol);
    ParsersAgree(HostOf(identity, protocol), ts, r, imsi);
  }
}
