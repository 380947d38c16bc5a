/** Classifying a device again after its derived services were stored. */
module Reclassify {
  import opened CleanList
  import opened Text
  import opened Wrappers
  import opened SortedText
  import opened Classifier
  import TextLayout

  // ---- where a term can occur in the services column ----

  lemma LowerJoin(a: string, b: string)
    ensures Lower(a + b) == Lower(a) + Lower(b)
  {
  }

  lemma At(s: string, i: nat, t: string, k: nat)
    requires HasAt(s, i, t) && k < |t|
    ensures s[i + k] == t[k]
  {
    assert s[i..i + |t|][k] == t[k];
  }

  lemma SliceLeft(a: string, c: char, b: string, i: nat, n: nat)
    requires i + n <= |a|
    ensures (a + [c] + b)[i..i + n] == a[i..i + n]
  {
  }

  lemma SliceRight(a: string, c: char, b: string, i: nat, n: nat)
    requires i + n <= |b|
    ensures (a + [c] + b)[|a| + 1 + i..|a| + 1 + i + n] == b[i..i + n]
  {
  }

  /** A term without the character c lies wholly on one side of it. */
  lemma Around(a: string, c: char, b: string, t: string)
    requires c !in t && t != ""
    ensures Contains(a + [c] + b, t) <==> Contains(a, t) || Contains(b, t)
  {
    var s := a + [c] + b;
    forall i | 0 <= i <= |a| - |t| && HasAt(a, i, t) ensures Contains(s, t) {
      SliceLeft(a, c, b, i, |t|);
      assert HasAt(s, i, t);
    }
    forall i | 0 <= i <= |b| - |t| && HasAt(b, i, t) ensures Contains(s, t) {
      SliceRight(a, c, b, i, |t|);
      assert HasAt(s, |a| + 1 + i, t);
    }
    forall i | 0 <= i <= |s| - |t| && HasAt(s, i, t) ensures Contains(a, t) || Contains(b, t) {
      if i <= |a| < i + |t| {
        At(s, i, t, |a| - i);
      } else if i < |a| {
        SliceLeft(a, c, b, i, |t|);
        assert HasAt(a, i, t);
      } else {
        SliceRight(a, c, b, i - |a| - 1, |t|);
        assert HasAt(b, i - |a| - 1, t);
      }
    }
  }

  lemma NotInEmpty(t: string)
    requires t != ""
    ensures !Contains("", t)
  {
  }

  /** Quoted between two characters the term does not have. */
  lemma Quoted(l: char, a: string, r: char, t: string)
    requires l !in t && r !in t && t != ""
    ensures Contains([l] + a + [r], t) <==> Contains(a, t)
  {
    NotInEmpty(t);
    Around([l] + a, r, "", t);
    assert [l] + a + [r] + "" == [l] + a + [r];
    Around("", l, a, t);
    assert "" + [l] + a == [l] + a;
  }

  predicate Plain(t: string) {
    t != "" && '"' !in t && ',' !in t && '[' !in t && ']' !in t
  }

  /** One of the listed services, as it appears in the lower-cased column, has the term. */
  ghost predicate Says(list: seq<string>, t: string) {
    exists e :: e in list && Contains(Lower(JsonBody(e)), t)
  }

  lemma LowerQuoted(a: string, rest: string)
    ensures Lower(['"'] + a + ['"']) == ['"'] + Lower(a) + ['"']
    ensures Lower(['"'] + a + ['"'] + ([','] + rest)) == ['"'] + Lower(a) + ['"'] + [','] + Lower(rest)
    ensures Lower(['['] + a + [']']) == ['['] + Lower(a) + [']'] && Lower("") == ""
  {
  }

  lemma {:induction false} ElementsSay(list: seq<string>, t: string)
    requires Plain(t)
    ensures Contains(Lower(Elements(list)), t) <==> Says(list, t)
  {
    hide Contains, Lower, JsonBody;
    if list == [] {
      LowerQuoted("", "");
      NotInEmpty(t);
    } else {
      var first := JsonBody(list[0]);
      Quoted('"', Lower(first), '"', t);
      LowerQuoted(first, Elements(list[1..]));
      assert list == [list[0]] + list[1..];
      if |list| > 1 {
        ElementsSay(list[1..], t);
        Around(['"'] + Lower(first) + ['"'], ',', Lower(Elements(list[1..])), t);
        assert Says(list, t) <==> Contains(Lower(first), t) || Says(list[1..], t) by {
          assert list[0] in list;
        }
      }
    }
  }

  lemma ServicesSay(services: Option<seq<string>>, t: string)
    requires Plain(t)
    ensures Contains(ServicesText(services), t) <==> Says(Listed(services), t)
  {
    hide Contains, Lower, JsonBody, Elements;
    LowerQuoted("", "");
    NotInEmpty(t);
    if services.Some? {
      ElementsSay(services.value, t);
      LowerQuoted(Elements(services.value), "");
      Quoted('[', Lower(Elements(services.value)), ']', t);
    }
  }

  // ---- which service names have which terms ----

  predicate Wordy(s: string) {
    forall i :: 0 <= i < |s| ==> 'a' <= s[i] <= 'z' || s[i] == '-'
  }

  lemma {:induction false} WordyShown(s: string)
    requires Wordy(s)
    ensures Lower(JsonBody(s)) == s
  {
    if s != "" {
      WordyShown(s[1..]);
      assert JsonBody(s) == [s[0]] + JsonBody(s[1..]);
      LowerJoin([s[0]], JsonBody(s[1..]));
      assert Lower([s[0]]) == [s[0]];
    }
  }

  lemma NamesWordy(s: Service)
    ensures Wordy(Name(s)) && Name(s) != ""
  {
  }

  /** Every character of a contained term is in the text. */
  lemma Shares(s: string, t: string, k: nat)
    requires Contains(s, t) && k < |t|
    ensures t[k] in s
  {
    var i :| 0 <= i <= |s| - |t| && HasAt(s, i, t);
    At(s, i, t, k);
  }

  /** A term's first two characters follow each other nowhere in the text. */
  lemma NoPair(s: string, t: string)
    requires |t| >= 2 && forall i :: 0 <= i < |s| - 1 ==> s[i] != t[0] || s[i + 1] != t[1]
    ensures !Contains(s, t)
  {
    if Contains(s, t) {
      var i :| 0 <= i <= |s| - |t| && HasAt(s, i, t);
      assert s[i..i + |t|] == t;
      assert s[i] == t[0];
      At(s, i, t, 1);
    }
  }

  lemma RareLetters(s: Service)
    ensures var n := Name(s); 'k' !in n && 'u' !in n
  {
  }

  lemma RareLettersToo(s: Service)
    ensures var n := Name(s); 'v' !in n && 'w' !in n
  {
  }

  lemma LettersWithA(s: Service)
    ensures var n := Name(s); 'a' in n ==> 'n' !in n && 'i' !in n
  {
  }

  lemma LettersWithAToo(s: Service)
    ensures var n := Name(s); 'a' in n ==> 'y' !in n && 'g' !in n && 'c' !in n
  {
  }

  lemma LettersWithI(s: Service)
    ensures var n := Name(s); 'i' in n && ('n' in n || 'p' in n) ==> s == Rpcbind || (s == Ipp && 'n' !in n)
    ensures 't' !in Name(Rpcbind)
  {
  }

  lemma LettersWithR(s: Service)
    ensures var n := Name(s);
      'r' in n && 't' in n && 'p' in n ==> s == Rtsp || s == RtspAlt || s == Postgresql
  {
  }

  lemma LettersWithD(s: Service)
    ensures var n := Name(s); 'r' in n && 'd' in n && 'p' in n ==> s == Rdp || s == Rpcbind
  {
  }

  lemma LettersWithS(s: Service)
    ensures var n := Name(s);
      ('s' in n && 'n' in n ==> 'o' !in n) && ('f' in n && 'n' in n ==> s == Nfs)
  {
  }

  lemma LettersWithM(s: Service)
    ensures var n := Name(s); 'm' in n && 'b' in n && 's' in n ==> s == Smb
  {
  }

  /** What the letters of the service names rule out. */
  lemma NameLetters(s: Service)
    ensures var n := Name(s);
      && 'k' !in n && 'u' !in n && 'v' !in n && 'w' !in n
      && ('a' in n ==> 'n' !in n && 'i' !in n && 'y' !in n && 'g' !in n && 'c' !in n)
      && ('i' in n && ('n' in n || 'p' in n) ==> s == Rpcbind || (s == Ipp && 'n' !in n))
      && ('r' in n && 't' in n && 'p' in n ==> s == Rtsp || s == RtspAlt || s == Postgresql)
      && ('s' in n && 'n' in n ==> 'o' !in n) && ('m' in n && 'b' in n && 's' in n ==> s == Smb)
      && ('f' in n && 'n' in n ==> s == Nfs)
      && ('r' in n && 'd' in n && 'p' in n ==> s == Rdp || s == Rpcbind)
      && 't' !in Name(Rpcbind)
  {
    hide Name;
    RareLetters(s);
    RareLettersToo(s);
    LettersWithM(s);
    LettersWithA(s);
    LettersWithAToo(s);
    LettersWithI(s);
    LettersWithR(s);
    LettersWithD(s);
    LettersWithS(s);
  }

  lemma NamePairs()
    ensures !Contains(Name(Rpcbind), "ipp") && !Contains(Name(Rpcbind), "rdp") && !Contains(Name(Postgresql), "rtsp")
  {
    NoPair("rpcbind", "ipp");
    NoPair("rpcbind", "rdp");
    NoPair("postgresql", "rtsp");
  }

  lemma PrinterNames(s: Service, t: string)
    requires t in PRINTER_TERMS && Contains(Name(s), t)
    ensures s == Ipp
  {
    hide Contains, Name;
    NameLetters(s);
    NamePairs();
    if t == "ipp" {
      Shares(Name(s), "ipp", 0);
      Shares(Name(s), "ipp", 1);
    } else if t == "printer" {
      Shares(Name(s), "printer", 2);
      Shares(Name(s), "printer", 3);
      Shares(Name(s), "printer", 4);
    } else {
      Shares(Name(s), "airprint", 0);
      Shares(Name(s), "airprint", 1);
    }
  }

  lemma CameraNames(s: Service, t: string)
    requires t in CAMERA_TERMS && Contains(Name(s), t)
    ensures s == Rtsp || s == RtspAlt
  {
    hide Contains, Name;
    NameLetters(s);
    NamePairs();
    if t == "onvif" {
      Shares(Name(s), "onvif", 2);
    } else {
      Shares(Name(s), "rtsp", 0);
      Shares(Name(s), "rtsp", 1);
      Shares(Name(s), "rtsp", 3);
    }
  }

  lemma MediaNames(s: Service, t: string)
    requires t in MEDIA_TERMS
    ensures !Contains(Name(s), t)
  {
    hide Contains, Name;
    NameLetters(s);
    if Contains(Name(s), t) {
      if t == "airplay" {
        Shares(Name(s), "airplay", 0);
        Shares(Name(s), "airplay", 6);
      } else if t == "googlecast" {
        Shares(Name(s), "googlecast", 0);
        Shares(Name(s), "googlecast", 7);
      } else if t == "chromecast" {
        Shares(Name(s), "chromecast", 0);
        Shares(Name(s), "chromecast", 7);
      } else if t == "roku" {
        Shares(Name(s), "roku", 2);
      } else if t == "homekit" {
        Shares(Name(s), "homekit", 4);
      } else if t == "sonos" {
        Shares(Name(s), "sonos", 0);
        Shares(Name(s), "sonos", 1);
        Shares(Name(s), "sonos", 2);
      } else {
        Shares(Name(s), "upnp", 0);
      }
    }
  }

  lemma ServerNames(s: Service, t: string)
    requires t in SERVER_TERMS && Contains(Name(s), t)
    ensures s == Smb || s == Nfs
  {
    hide Contains, Name;
    NameLetters(s);
    if t == "smb" {
      Shares(Name(s), "smb", 0);
      Shares(Name(s), "smb", 1);
      Shares(Name(s), "smb", 2);
    } else if t == "nfs" {
      Shares(Name(s), "nfs", 0);
      Shares(Name(s), "nfs", 1);
    } else {
      Shares(Name(s), "nas", 0);
      Shares(Name(s), "nas", 1);
    }
  }

  lemma ClientNames(s: Service, t: string)
    requires t in CLIENT_TERMS && Contains(Name(s), t)
    ensures s == Rdp
  {
    hide Contains, Name;
    NameLetters(s);
    NamePairs();
    if t == "workstation" {
      Shares(Name(s), "workstation", 0);
    } else {
      Shares(Name(s), "rdp", 0);
      Shares(Name(s), "rdp", 1);
      Shares(Name(s), "rdp", 2);
    }
  }

  // ---- storing a scan's services ----

  predicate Clean(list: seq<string>) {
    forall e :: e in list ==> e != "" && TextLayout.TrimSpace(e) == e
  }

  /** The device after one scan was stored: mergeServices on its column. */
  function Scanned(d: Device, ports: seq<int>): Device {
    d.(services := Some(MergeServices(d.services, Sort(FoundNames(ports)))))
  }

  lemma NamesClean(ports: seq<int>)
    ensures Clean(Sort(FoundNames(ports)))
  {
    hide Sort, Name;
    forall e | e in Sort(FoundNames(ports)) ensures e != "" && TextLayout.TrimSpace(e) == e {
      var p :| p in ports && ServiceOf(p).Some? && e == Name(ServiceOf(p).value);
      NamesWordy(ServiceOf(p).value);
      TextLayout.NothingToTrim(e);
    }
  }

  /** Whatever was in the column, what is written back is sorted, trimmed, without repetitions. */
  lemma MergeClean(services: Option<seq<string>>, observed: seq<string>)
    ensures var m := MergeServices(services, observed); Clean(m) && Sorted(m) && Distinct(m)
  {
    var all := Listed(services) + observed;
    SortSorts(Cleaned(all));
    forall e | e in Cleaned(all) ensures e != "" && TextLayout.TrimSpace(e) == e {
      var i :| 0 <= i < |all| && e == TextLayout.TrimSpace(all[i]);
      TrimTwice(all[i]);
    }
  }

  lemma MergeElements(services: Option<seq<string>>, observed: seq<string>)
    requires Clean(Listed(services)) && Clean(observed)
    ensures forall e :: e in MergeServices(services, observed) <==> e in Listed(services) || e in observed
  {
    hide Sort;
    var all := Listed(services) + observed;
    forall e ensures e in Cleaned(all) <==> e in all {
      if e in all {
        var i :| 0 <= i < |all| && all[i] == e;
        assert all[i] in Listed(services) || all[i] in observed;
        assert e == TextLayout.TrimSpace(all[i]);
      }
      if e in Cleaned(all) {
        var i :| 0 <= i < |all| && e == TextLayout.TrimSpace(all[i]);
        assert all[i] in Listed(services) || all[i] in observed;
        assert e == all[i];
      }
    }
  }

  lemma ObservedKept(services: Option<seq<string>>, observed: seq<string>)
    requires Clean(observed)
    ensures forall e :: e in observed ==> e in MergeServices(services, observed)
  {
    hide Sort;
    var all := Listed(services) + observed;
    forall e | e in observed ensures e in MergeServices(services, observed) {
      var i :| 0 <= i < |observed| && observed[i] == e;
      assert all[|Listed(services)| + i] == e;
      assert e == TextLayout.TrimSpace(all[|Listed(services)| + i]);
    }
  }

  /** Storing the same observed services again changes nothing. */
  lemma MergeSettles(services: Option<seq<string>>, observed: seq<string>)
    requires Clean(observed)
    ensures var m := MergeServices(services, observed); MergeServices(Some(m), observed) == m
  {
    hide MergeServices, Sorted, Distinct, Clean;
    var m := MergeServices(services, observed);
    MergeClean(services, observed);
    ObservedKept(services, observed);
    MergeElements(Some(m), observed);
    MergeClean(Some(m), observed);
    SortedUnique(MergeServices(Some(m), observed), m);
  }

  /** A scan of these ports derives a service whose name has the term. */
  ghost predicate Derives(ports: seq<int>, t: string) {
    exists p :: p in ports && ServiceOf(p).Some? && Contains(Name(ServiceOf(p).value), t)
  }

  lemma NamesSay(ports: seq<int>, t: string)
    ensures Says(Sort(FoundNames(ports)), t) <==> Derives(ports, t)
  {
    hide Contains, Name, Lower, JsonBody;
    var names := Sort(FoundNames(ports));
    forall p | p in ports && ServiceOf(p).Some?
        ensures Lower(JsonBody(Name(ServiceOf(p).value))) == Name(ServiceOf(p).value) {
      NamesWordy(ServiceOf(p).value);
      WordyShown(Name(ServiceOf(p).value));
    }
    if Derives(ports, t) {
      var p :| p in ports && ServiceOf(p).Some? && Contains(Name(ServiceOf(p).value), t);
      assert Name(ServiceOf(p).value) in FoundNames(ports);
    }
  }

  lemma ScannedSays(d: Device, ports: seq<int>, t: string)
    requires Plain(t) && Clean(Listed(d.services))
    ensures Contains(ServicesText(Scanned(d, ports).services), t) <==>
            Contains(ServicesText(d.services), t) || Derives(ports, t)
  {
    hide Contains, ServicesText, MergeServices, Lower, JsonBody, Sort, FoundNames, Plain, Derives;
    var names := Sort(FoundNames(ports));
    NamesClean(ports);
    MergeElements(d.services, names);
    NamesSay(ports, t);
    ServicesSay(d.services, t);
    ServicesSay(Scanned(d, ports).services, t);
  }

  lemma ScannedMentions(d: Device, ports: seq<int>, terms: seq<string>)
    requires (forall t :: t in terms ==> Plain(t)) && Clean(Listed(d.services))
    ensures Mentions(ServicesText(Scanned(d, ports).services), terms)
            <==> Mentions(ServicesText(d.services), terms) || exists t :: t in terms && Derives(ports, t)
  {
    hide Contains, ServicesText, Scanned, Plain, Derives;
    forall t | t in terms
      ensures Contains(ServicesText(Scanned(d, ports).services), t) <==>
              Contains(ServicesText(d.services), t) || Derives(ports, t)
    {
      ScannedSays(d, ports, t);
    }
  }

  lemma DerivedPorts(ports: seq<int>, t: string)
    requires Derives(ports, t)
    ensures t in PRINTER_TERMS ==> Has(PortSet(ports), PRINTER_PORTS)
    ensures t in CAMERA_TERMS ==> Has(PortSet(ports), CAMERA_PORTS)
    ensures t !in MEDIA_TERMS
    ensures t in SERVER_TERMS ==> Has(PortSet(ports), SERVER_PORTS)
    ensures t in CLIENT_TERMS ==> Has(PortSet(ports), CLIENT_PORTS)
  {
    hide Contains, Name;
    var p :| p in ports && ServiceOf(p).Some? && Contains(Name(ServiceOf(p).value), t);
    var s := ServiceOf(p).value;
    assert p in PortSet(ports);
    if t in PRINTER_TERMS { PrinterNames(s, t); assert p in PRINTER_PORTS; }
    if t in CAMERA_TERMS { CameraNames(s, t); assert p in CAMERA_PORTS; }
    if t in SERVER_TERMS { ServerNames(s, t); assert p in SERVER_PORTS; }
    if t in CLIENT_TERMS { ClientNames(s, t); assert p in CLIENT_PORTS; }
    if t in MEDIA_TERMS { MediaNames(s, t); }
  }

  lemma TermsPlain(t: string)
    requires t in PRINTER_TERMS + CAMERA_TERMS + SERVER_TERMS
    ensures Plain(t)
  {
  }

  lemma MoreTermsPlain(t: string)
    requires t in MEDIA_TERMS + CLIENT_TERMS
    ensures Plain(t)
  {
  }

  /** Storing a scan's services and classifying again with the same ports gives the same category. */
  lemma SameCategory(d: Device, ports: seq<int>)
    requires Clean(Listed(d.services))
    ensures Decide(Scanned(d, ports), PortSet(ports)) == Decide(d, PortSet(ports))
  {
    hide Contains, ServicesText, MergeServices, Plain, Derives, Has, PortSet, Mentions, Lower, Sort, FoundNames;
    forall t | t in PRINTER_TERMS + CAMERA_TERMS + SERVER_TERMS ensures Plain(t) {
      TermsPlain(t);
    }
    forall t | t in MEDIA_TERMS + CLIENT_TERMS ensures Plain(t) {
      MoreTermsPlain(t);
    }
    ScannedMentions(d, ports, PRINTER_TERMS);
    ScannedMentions(d, ports, CAMERA_TERMS);
    ScannedMentions(d, ports, MEDIA_TERMS);
    ScannedMentions(d, ports, SERVER_TERMS);
    ScannedMentions(d, ports, CLIENT_TERMS);
    forall t | Derives(ports, t)
      ensures t in PRINTER_TERMS ==> Has(PortSet(ports), PRINTER_PORTS)
      ensures t in CAMERA_TERMS ==> Has(PortSet(ports), CAMERA_PORTS)
      ensures t !in MEDIA_TERMS
      ensures t in SERVER_TERMS ==> Has(PortSet(ports), SERVER_PORTS)
      ensures t in CLIENT_TERMS ==> Has(PortSet(ports), CLIENT_PORTS)
    {
      DerivedPorts(ports, t);
    }
  }

  /** From the second pass on nothing about the device changes any more. */
  lemma FixedPoint(d: Device, ports: seq<int>)
    ensures Scanned(Scanned(d, ports), ports) == Scanned(d, ports)
  {
    NamesClean(ports);
    MergeSettles(d.services, Sort(FoundNames(ports)));
  }
}
