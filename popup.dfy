/**
 The popup of an earthquake marker: an HTML fragment that shows the place, the
 time and the magnitude. How a timestamp and a number are rendered as text is
 left to the two formatter parameters.
 */
module Popup {
  import opened Marker

  /** `t` occurs in `s` starting at index `i`. */
  predicate OccursAt(s: string, t: string, i: nat)
  {
    i + |t| <= |s| && s[i..i + |t|] == t
  }

  /** `t` occurs somewhere in `s`. */
  predicate Contains(s: string, t: string)
  {
    exists i: nat | i <= |s| :: OccursAt(s, t, i)
  }

  /** The opening of every popup: the place, verbatim, as a heading. */
  function Header(place: string): (h: string)
    ensures |h| == |"<h3>"| + |place| + |"</h3><hr><p>"|
    ensures h[..4] == "<h3>" && OccursAt(h, place, 4) && h[4 + |place|..] == "</h3><hr><p>"
  {
    "<h3>" + place + "</h3><hr><p>"
  }

  /** The closing of every popup: the magnitude as a heading. */
  function Footer(magnitudeText: string): (f: string)
    ensures |f| == |"<h3>"| + |"Magnitude: " + magnitudeText| + |"</h3>"|
    ensures f[..4] == "<h3>" && OccursAt(f, "Magnitude: " + magnitudeText, 4) && f[|f| - 5..] == "</h3>"
  {
    "<h3>Magnitude: " + magnitudeText + "</h3>"
  }

  /** The popup text bound to the marker of `feature`. */
  function PopupHtml(feature: Earthquake, showTime: int -> string, showNumber: real -> string): (html: string)
    ensures |html| == |Header(feature.place)| + |showTime(feature.time)| + |"</p><hr><p>"| + |Footer(showNumber(feature.mag))|
    ensures html[..|Header(feature.place)|] == Header(feature.place)
    ensures html[|html| - |Footer(showNumber(feature.mag))|..] == Footer(showNumber(feature.mag))
  {
    "<h3>" + feature.place +
    "</h3><hr><p>" + showTime(feature.time) +
    "</p><hr><p>" + "<h3>Magnitude: " + showNumber(feature.mag) + "</h3>"
  }

  /** `t` occurs at the end of `a + t`. */
  lemma OccursAtEnd(a: string, t: string)
    ensures OccursAt(a + t, t, |a|)
  {
    assert (a + t)[|a|..|a| + |t|] == t;
  }

  /** An occurrence stays where it is when text is appended. */
  lemma OccursAfterAppend(s: string, t: string, i: nat, u: string)
    requires OccursAt(s, t, i)
    ensures OccursAt(s + u, t, i)
  {
    assert (s + u)[i..i + |t|] == s[i..i + |t|];
  }

  /** The place appears verbatim, right after the opening tag. */
  lemma PopupShowsPlace(feature: Earthquake, showTime: int -> string, showNumber: real -> string)
    ensures OccursAt(PopupHtml(feature, showTime, showNumber), feature.place, |"<h3>"|)
  {
    var place := feature.place;
    var html := PopupHtml(feature, showTime, showNumber);
    var rest := html[|"<h3>" + place|..];
    assert html == ("<h3>" + place) + rest;
    OccursAtEnd("<h3>", place);
    OccursAfterAppend("<h3>" + place, place, 4, rest);
  }

  /** The rendered time appears verbatim, right after the place's heading. */
  lemma PopupShowsTime(feature: Earthquake, showTime: int -> string, showNumber: real -> string)
    ensures OccursAt(PopupHtml(feature, showTime, showNumber), showTime(feature.time), |Header(feature.place)|)
  {
    var head, time := Header(feature.place), showTime(feature.time);
    var html := PopupHtml(feature, showTime, showNumber);
    var rest := html[|head + time|..];
    assert html == (head + time) + rest;
    OccursAtEnd(head, time);
    OccursAfterAppend(head + time, time, |head|, rest);
  }

  /** "Magnitude: " and the rendered magnitude appear verbatim, inside the
      closing heading. */
  lemma PopupShowsMagnitude(feature: Earthquake, showTime: int -> string, showNumber: real -> string)
    ensures var html := PopupHtml(feature, showTime, showNumber);
      OccursAt(html, "Magnitude: " + showNumber(feature.mag), |html| - |"Magnitude: " + showNumber(feature.mag) + "</h3>"|)
  {
    var m := "Magnitude: " + showNumber(feature.mag);
    var html := PopupHtml(feature, showTime, showNumber);
    var front := html[..|html| - |m + "</h3>"|];
    assert html == front + m + "</h3>";
    OccursAtEnd(front, m);
    OccursAfterAppend(front + m, m, |front|, "</h3>");
  }

  /** The rule between the time and the magnitude appears right after the
      rendered time, so the popup is header, time, rule and footer in that order. */
  lemma PopupShowsSeparator(feature: Earthquake, showTime: int -> string, showNumber: real -> string)
    ensures OccursAt(PopupHtml(feature, showTime, showNumber), "</p><hr><p>",
      |Header(feature.place)| + |showTime(feature.time)|)
  {
    var front := Header(feature.place) + showTime(feature.time);
    var html := PopupHtml(feature, showTime, showNumber);
    var rest := html[|front + "</p><hr><p>"|..];
    assert html == (front + "</p><hr><p>") + rest;
    OccursAtEnd(front, "</p><hr><p>");
    OccursAfterAppend(front + "</p><hr><p>", "</p><hr><p>", |front|, rest);
  }

  /** The place, the rendered time and the rendered magnitude all appear verbatim. */
  lemma PopupShowsFields(feature: Earthquake, showTime: int -> string, showNumber: real -> string)
    ensures Contains(PopupHtml(feature, showTime, showNumber), feature.place)
    ensures Contains(PopupHtml(feature, showTime, showNumber), showTime(feature.time))
    ensures Contains(PopupHtml(feature, showTime, showNumber), "Magnitude: " + showNumber(feature.mag))
  {
    PopupShowsPlace(feature, showTime, showNumber);
    PopupShowsTime(feature, showTime, showNumber);
    PopupShowsMagnitude(feature, showTime, showNumber);
  }

  /** The popup determines the place: two earthquakes whose time and magnitude
      render alike have the same popup exactly when they have the same place. */
  lemma PopupDeterminesPlace(f: Earthquake, g: Earthquake, showTime: int -> string, showNumber: real -> string)
    requires showTime(f.time) == showTime(g.time) && showNumber(f.mag) == showNumber(g.mag)
    ensures PopupHtml(f, showTime, showNumber) == PopupHtml(g, showTime, showNumber) <==> f.place == g.place
  {
    var a, b := PopupHtml(f, showTime, showNumber), PopupHtml(g, showTime, showNumber);
    if a == b {
      var tail := |"</h3><hr><p>"| + |showTime(f.time)| + |"</p><hr><p>"| + |Footer(showNumber(f.mag))|;
      assert a[4..|a| - tail] == f.place;
      assert b[4..|b| - tail] == g.place;
    }
  }

  /** A sample popup: the place "10km N of X" and, when the number formatter
      renders 4.2 as "4.2", that text appear in the popup. */
  lemma PopupSample(showTime: int -> string, showNumber: real -> string)
    requires showNumber(4.2) == "4.2"
    ensures Contains(PopupHtml(Earthquake("10km N of X", 1700000000000, 4.2), showTime, showNumber), "10km N of X")
    ensures Contains(PopupHtml(Earthquake("10km N of X", 1700000000000, 4.2), showTime, showNumber), "4.2")
  {
    var feature := Earthquake("10km N of X", 1700000000000, 4.2);
    var html := PopupHtml(feature, showTime, showNumber);
    PopupShowsFields(feature, showTime, showNumber);
    var i: nat :| i <= |html| && OccursAt(html, "Magnitude: " + showNumber(4.2), i);
    assert html[i + 11..i + 14] == "4.2";
    assert OccursAt(html, "4.2", i + 11);
  }
}
