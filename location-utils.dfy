/**
 * The online-venue test: a location is online or virtual when one of a fixed list of
 * keywords occurs in its lower-cased name, address and city joined by spaces. Such
 * locations need no coordinates and are not tracked as missing.
 */
module LocationUtils {
  import Wrappers
  import Strs

  /** The keywords, in the order listed. */
  const OnlineKeywords: seq<string> := [
    "online", "webinar", "webinář", "virtual", "virtuální", "zoom", "teams",
    "google meet", "microsoft teams", "stream", "live stream"]

  /** `field?.toLowerCase() || ''`. */
  function LowerOrEmpty(field: Wrappers.Option<string>): string {
    Strs.Lower(Wrappers.OrEmpty(field))
  }

  /** `textToCheck`: the three lower-cased fields joined by single spaces. */
  function TextToCheck(locationName: Wrappers.Option<string>, address: Wrappers.Option<string>,
                       cityName: Wrappers.Option<string>): (r: string)
    ensures r == LowerOrEmpty(locationName) + " " + LowerOrEmpty(address) + " " + LowerOrEmpty(cityName)
  {
    var a, b, c := LowerOrEmpty(locationName), LowerOrEmpty(address), LowerOrEmpty(cityName);
    var parts := [a, b, c];
    assert parts[1..] == [b, c] && parts[1..][1..] == [c];
    assert Strs.Join(parts[1..], " ") == b + " " + c;
    assert a + " " + (b + " " + c) == a + " " + b + " " + c;
    Strs.Join(parts, " ")
  }

  /** Some keyword of `keywords` occurs in `text` (`keywords.some((k) => text.includes(k))`). */
  predicate AnyOccurs(text: string, keywords: seq<string>) {
    exists k :: 0 <= k < |keywords| && Strs.Contains(text, keywords[k])
  }

  /** `isOnlineLocation`. */
  predicate IsOnline(locationName: Wrappers.Option<string>, address: Wrappers.Option<string>,
                     cityName: Wrappers.Option<string>) {
    AnyOccurs(TextToCheck(locationName, address, cityName), OnlineKeywords)
  }

  /** `shouldTrackMissingLocation`: a location is tracked exactly when it is not online. */
  function ShouldTrack(locationName: Wrappers.Option<string>, address: Wrappers.Option<string>,
                       cityName: Wrappers.Option<string>): (r: bool)
    ensures r <==> !IsOnline(locationName, address, cityName)
  {
    !IsOnline(locationName, address, cityName)
  }

  // ---------------------------------------------------------------------------
  // Facts

  /** With every field missing the text is two spaces, which holds no keyword: not online, so tracked. */
  lemma AllMissingIsTracked()
    ensures !IsOnline(Wrappers.None, Wrappers.None, Wrappers.None)
    ensures ShouldTrack(Wrappers.None, Wrappers.None, Wrappers.None)
  {
    var text := TextToCheck(Wrappers.None, Wrappers.None, Wrappers.None);
    assert text == "  ";
    forall k | 0 <= k < |OnlineKeywords|
      ensures !Strs.Contains(text, OnlineKeywords[k])
    {
      assert OnlineKeywords[k][0] != ' ';
      Strs.SpacesContainNoWord(text, OnlineKeywords[k]);
    }
  }

  /** A keyword in any one field, in any case, makes the location online. */
  lemma FieldKeywordIsOnline(locationName: Wrappers.Option<string>, address: Wrappers.Option<string>,
                             cityName: Wrappers.Option<string>, k: nat)
    requires k < |OnlineKeywords|
    requires Strs.Contains(LowerOrEmpty(locationName), OnlineKeywords[k]) ||
             Strs.Contains(LowerOrEmpty(address), OnlineKeywords[k]) ||
             Strs.Contains(LowerOrEmpty(cityName), OnlineKeywords[k])
    ensures IsOnline(locationName, address, cityName)
  {
    var a, b, c := LowerOrEmpty(locationName), LowerOrEmpty(address), LowerOrEmpty(cityName);
    var text := TextToCheck(locationName, address, cityName);
    var pick := if Strs.Contains(a, OnlineKeywords[k]) then (a, 0)
                else if Strs.Contains(b, OnlineKeywords[k]) then (b, |a| + 1)
                else (c, |a| + |b| + 2);
    var field, at := pick.0, pick.1;
    assert Strs.OccursAt(text, field, at);
    Strs.ContainsAt(text, field);
    Strs.ContainsTransitive(text, field, OnlineKeywords[k]);
  }

  /** Because the fields are joined by spaces, a keyword can span two of them. */
  lemma KeywordAcrossFields()
    ensures IsOnline(Wrappers.Some("Google"), Wrappers.Some("Meet"), Wrappers.None)
    ensures !Strs.Contains("google", "google meet") && !Strs.Contains("meet", "google meet")
  {
    var text := TextToCheck(Wrappers.Some("Google"), Wrappers.Some("Meet"), Wrappers.None);
    assert text == "google meet ";
    assert OnlineKeywords[7] == "google meet";
    assert "google meet" <= text;
  }

  /** Upper and lower case do not matter: lower-casing the fields first gives the same answer. */
  lemma CaseIgnored(locationName: string, address: string, cityName: string)
    ensures IsOnline(Wrappers.Some(Strs.Lower(locationName)), Wrappers.Some(Strs.Lower(address)), Wrappers.Some(Strs.Lower(cityName)))
        <==> IsOnline(Wrappers.Some(locationName), Wrappers.Some(address), Wrappers.Some(cityName))
  {
    Strs.LowerIdempotent(locationName);
    Strs.LowerIdempotent(address);
    Strs.LowerIdempotent(cityName);
  }

  /** The keywords without "microsoft teams" and "live stream". */
  const EssentialKeywords: seq<string> := [
    "online", "webinar", "webinář", "virtual", "virtuální", "zoom", "teams", "google meet", "stream"]

  /**
   * "microsoft teams" and "live stream" are redundant: any text holding them holds "teams"
   * or "stream", so the test is the same without them.
   */
  lemma RedundantKeywords(text: string)
    ensures AnyOccurs(text, OnlineKeywords) <==> AnyOccurs(text, EssentialKeywords)
  {
    if AnyOccurs(text, OnlineKeywords) {
      var k :| 0 <= k < |OnlineKeywords| && Strs.Contains(text, OnlineKeywords[k]);
      if k == 8 {
        assert Strs.Contains("microsoft teams", "teams") by {
          assert Strs.OccursAt("microsoft teams", "teams", 10);
          Strs.ContainsAt("microsoft teams", "teams");
        }
        Strs.ContainsTransitive(text, "microsoft teams", "teams");
        assert EssentialKeywords[6] == "teams";
      } else if k == 10 {
        assert Strs.Contains("live stream", "stream") by {
          assert Strs.OccursAt("live stream", "stream", 5);
          Strs.ContainsAt("live stream", "stream");
        }
        Strs.ContainsTransitive(text, "live stream", "stream");
        assert EssentialKeywords[8] == "stream";
      } else {
        var e := if k < 8 then k else 8;
        assert EssentialKeywords[e] == OnlineKeywords[k];
      }
    }
    if AnyOccurs(text, EssentialKeywords) {
      var e :| 0 <= e < |EssentialKeywords| && Strs.Contains(text, EssentialKeywords[e]);
      var k := if e < 8 then e else 9;
      assert OnlineKeywords[k] == EssentialKeywords[e];
    }
  }
}
