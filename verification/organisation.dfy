/** The helpers the stakeholder analysis uses to bucket a work event: the
    organisation behind an e-mail address, the meeting-size bucket and the
    location bucket. */
module Organisation {
  import opened Text

  /** `email.split('@')[1].lower()`: the text between the first and the
      second `@`, lower-cased. */
  function DomainOf(email: string): (r: string)
    requires '@' in email
    ensures '@' !in r
    ensures Lower(Before(After(email, '@'), '@')) == r
  {
    var raw := Before(After(email, '@'), '@');
    assert forall k :: 0 <= k < |raw| ==> raw[k] != '@';
    Lower(raw)
  }

  /** Where the first `c` of a text is, `Before` and `After` split it. */
  lemma SplitAt(s: string, c: char, i: nat)
    requires i <= |s| && (i < |s| ==> s[i] == c)
    requires forall k :: 0 <= k < i ==> s[k] != c
    ensures Before(s, c) == s[..i]
    ensures i < |s| ==> After(s, c) == s[i + 1..]
  {
  }

  /** A text split at its first `@`. */
  lemma Cut(x: string, y: string)
    requires '@' !in x
    ensures Before(x + "@" + y, '@') == x && After(x + "@" + y, '@') == y
    ensures y == "" || y[0] == '@' ==> Before(x + y, '@') == x
  {
    SplitAt(x + "@" + y, '@', |x|);
    if y == "" || y[0] == '@' {
      SplitAt(x + y, '@', |x|);
    }
  }

  /** The domain of a well-formed address is its lower-cased host part,
      whatever follows a second `@`. */
  lemma DomainOfAddress(local: string, host: string, tail: string)
    requires '@' !in local && '@' !in host
    requires tail == "" || tail[0] == '@'
    ensures DomainOf(local + "@" + host + tail) == Lower(host)
  {
    var after := host + tail;
    var email := local + "@" + after;
    assert local + "@" + host + tail == email;
    Cut(local, after);
    Cut(host, tail);
    assert DomainOf(email) == Lower(Before(After(email, '@'), '@'));
  }

  const Webmail: seq<string> := ["gmail.com", "outlook.com", "hotmail.com", "yahoo.com"]

  /** `extract_company_from_email`. */
  function Company(email: string): (r: string)
    ensures '@' !in email ==> r == "Unknown"
    ensures '@' in email && Contains(DomainOf(email), "autodesk") ==> r == "Autodesk (Internal)"
    ensures '@' in email && !Contains(DomainOf(email), "autodesk") && DomainOf(email) in Webmail ==> r == "Personal Email"
    ensures '@' in email && !Contains(DomainOf(email), "autodesk") && DomainOf(email) !in Webmail ==>
      |r| == |Before(DomainOf(email), '.')| && Lower(r) == Before(DomainOf(email), '.')
    ensures '@' in email && !Contains(DomainOf(email), "autodesk") && DomainOf(email) !in Webmail ==>
      var first := Before(DomainOf(email), '.');
      forall i :: 0 <= i < |first| ==>
        r[i] == if i > 0 && IsLetter(first[i - 1]) then LowerChar(first[i]) else UpperChar(first[i])
  {
    if email == "" || '@' !in email then "Unknown"
    else
      var domain := DomainOf(email);
      if Contains(domain, "autodesk") then "Autodesk (Internal)"
      else if domain in Webmail then "Personal Email"
      else
        var first := Before(domain, '.');
        LowerTitle(first, false);
        LowerIdempotent(first);
        TitleCase(first)
  }

  /** A lower-cased text is unchanged by lower-casing it again. */
  lemma LowerIdempotent(s: string)
    requires forall k :: 0 <= k < |s| ==> s[k] == LowerChar(s[k])
    ensures Lower(s) == s
  {
  }

  /** The organisation of a well-formed address, by the class of its host. */
  lemma CompanyOfAddress(local: string, host: string)
    requires '@' !in local && '@' !in host
    ensures var d := Lower(host);
      Company(local + "@" + host) ==
        if Contains(d, "autodesk") then "Autodesk (Internal)"
        else if d in Webmail then "Personal Email"
        else TitleCase(Before(d, '.'))
  {
    var email := local + "@" + host;
    DomainOfAddress(local, host, "");
    assert email + "" == email;
    assert email[|local|] == '@';
    var d := DomainOf(email);
    assert d == Lower(host);
    if Contains(d, "autodesk") {
    } else if d in Webmail {
    } else {
      assert Company(email) == TitleCase(Before(d, '.'));
    }
  }

  /** The organisation does not depend on the case of the host. */
  lemma CompanyIgnoresCase(local: string, host: string, other: string)
    requires '@' !in local && '@' !in host && '@' !in other
    requires Lower(host) == Lower(other)
    ensures Company(local + "@" + host) == Company(local + "@" + other)
  {
    CompanyOfAddress(local, host);
    CompanyOfAddress(local, other);
  }

  /** The meeting-size buckets, smallest first. */
  const SizeNames: seq<string> := [
    "1:1 (2 people)", "Small (3-5 people)", "Medium (6-10 people)",
    "Large (11-20 people)", "Very Large (20+ people)"]

  /** The largest attendee count of each bucket but the last. */
  const SizeLimits: seq<nat> := [2, 5, 10, 20]

  /** The meeting-size bucket of `analyze_time_patterns`. */
  function SizeBucket(attendees: nat): (r: string)
    ensures r in SizeNames
  {
    if attendees <= 2 then "1:1 (2 people)"
    else if attendees <= 5 then "Small (3-5 people)"
    else if attendees <= 10 then "Medium (6-10 people)"
    else if attendees <= 20 then "Large (11-20 people)"
    else "Very Large (20+ people)"
  }

  /** How many of the limits a count exceeds. */
  function Exceeded(limits: seq<nat>, n: nat): (r: nat)
    ensures r <= |limits|
  {
    if |limits| == 0 then 0
    else (if n > limits[0] then 1 else 0) + Exceeded(limits[1..], n)
  }

  /** Exceeding a limit is monotone: a larger count exceeds at least as many. */
  lemma {:induction false} ExceededMonotone(limits: seq<nat>, n: nat, m: nat)
    requires n <= m
    ensures Exceeded(limits, n) <= Exceeded(limits, m)
  {
    if |limits| > 0 {
      ExceededMonotone(limits[1..], n, m);
    }
  }

  /** The bucket is the one whose index is the number of limits exceeded. */
  lemma SizeByLimits(attendees: nat)
    ensures SizeBucket(attendees) == SizeNames[Exceeded(SizeLimits, attendees)]
  {
    var l, n := SizeLimits, attendees;
    assert l[0] == 2 && l[1..][0] == 5 && l[1..][1..][0] == 10 && l[1..][1..][1..][0] == 20;
    assert |l[1..][1..][1..][1..]| == 0;
    assert Exceeded(l[1..][1..][1..], n) == if n > 20 then 1 else 0;
    assert Exceeded(l[1..][1..], n) == (if n > 10 then 1 else 0) + Exceeded(l[1..][1..][1..], n);
    assert Exceeded(l[1..], n) == (if n > 5 then 1 else 0) + Exceeded(l[1..][1..], n);
    assert Exceeded(l, n) == (if n > 2 then 1 else 0) + Exceeded(l[1..], n);
  }

  /** A larger meeting never lands in a smaller bucket. */
  lemma SizeMonotone(n: nat, m: nat)
    requires n <= m
    ensures Exceeded(SizeLimits, n) <= Exceeded(SizeLimits, m)
    ensures SizeBucket(n) == SizeNames[Exceeded(SizeLimits, n)]
    ensures SizeBucket(m) == SizeNames[Exceeded(SizeLimits, m)]
  {
    ExceededMonotone(SizeLimits, n, m);
    SizeByLimits(n);
    SizeByLimits(m);
  }

  const LocationNames: seq<string> := ["Virtual (Teams/Zoom)", "Physical Location", "No Location"]

  /** The location bucket of `analyze_time_patterns`. */
  function LocationBucket(location: string): (r: string)
    ensures r in LocationNames
  {
    var loc := if location != "" then location else "No Location";
    var lower := Lower(loc);
    if Contains(lower, "teams.microsoft.com") || Contains(lower, "zoom") then "Virtual (Teams/Zoom)"
    else if loc != "" && loc != "No Location" then "Physical Location"
    else loc
  }

  /** A keyword whose first character is absent from a text does not occur in it. */
  lemma FirstCharAbsent(s: string, w: string)
    requires |w| > 0 && w[0] !in s
    ensures !Contains(s, w)
  {
    forall i | 0 <= i <= |s| - |w|
      ensures !OccursAt(s, w, i)
    {
      assert s[i] != w[0];
    }
  }

  /** Neither link keyword occurs in the lower-cased "No Location". */
  lemma NoLocationNotVirtual()
    ensures !Contains(Lower("No Location"), "teams.microsoft.com")
    ensures !Contains(Lower("No Location"), "zoom")
  {
    var s := "No Location";
    var n := Lower(s);
    NoZInNoLocation();
    forall k | 0 <= k < |n|
      ensures n[k] != 'z'
    {
      LowersToZ(s[k]);
      assert s[k] in s;
    }
    FirstCharAbsent(n, "zoom");
  }

  lemma NoZInNoLocation()
    ensures 'z' !in "No Location" && 'Z' !in "No Location"
  {
  }

  lemma LowersToZ(c: char)
    ensures LowerChar(c) == 'z' ==> c == 'z' || c == 'Z'
  {
  }

  /** The three buckets: a Teams or Zoom link in any case is virtual, an
      empty location or the literal "No Location" is none, and everything
      else is physical. */
  lemma LocationIff(location: string)
    ensures LocationBucket(location) == "Virtual (Teams/Zoom)" <==>
      Contains(Lower(location), "teams.microsoft.com") || Contains(Lower(location), "zoom")
    ensures LocationBucket(location) == "No Location" <==> location == "" || location == "No Location"
  {
    var r := LocationBucket(location);
    var virtual := Contains(Lower(location), "teams.microsoft.com") || Contains(Lower(location), "zoom");
    NamesDistinct();
    if location == "" || location == "No Location" {
      NoLocationNotVirtual();
      if location == "" {
        assert Lower(location) == "";
      }
      assert !virtual;
      assert r == "No Location";
    } else if virtual {
      assert r == "Virtual (Teams/Zoom)";
    } else {
      assert r == "Physical Location";
    }
  }

  lemma NamesDistinct()
    ensures "Virtual (Teams/Zoom)" != "No Location" && "Physical Location" != "No Location"
    ensures "Virtual (Teams/Zoom)" != "Physical Location"
  {
    assert "Virtual (Teams/Zoom)"[0] == 'V' && "Physical Location"[0] == 'P' && "No Location"[0] == 'N';
  }
}
