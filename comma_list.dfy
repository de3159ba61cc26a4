/**
 * The comma-separated list fields of the signup and profile forms
 * (skills, interests, research areas): the text box holds one string, and
 * the request carries `text.split(",").map(x => x.trim()).filter(x => x.length > 0)`.
 * The profile forms fill the box with `list.join(", ")`.
 */
module CommaList {
  import opened JsStrings

  /** `pieces.map(x => x.trim())` */
  function TrimAll(pieces: seq<string>): (r: seq<string>)
    ensures |r| == |pieces|
    ensures forall i :: 0 <= i < |r| ==> r[i] == Trim(pieces[i])
  {
    if pieces == [] then [] else [Trim(pieces[0])] + TrimAll(pieces[1..])
  }

  /** `pieces.filter(x => x.length > 0)`, which is also `filter(x => x)` on strings. */
  function DropEmpty(pieces: seq<string>): (r: seq<string>)
    ensures |r| <= |pieces|
    ensures forall i :: 0 <= i < |r| ==> r[i] != "" && r[i] in pieces
    ensures (forall i :: 0 <= i < |pieces| ==> pieces[i] != "") ==> r == pieces
  {
    if pieces == [] then []
    else (if pieces[0] == "" then [] else [pieces[0]]) + DropEmpty(pieces[1..])
  }

  /** The list a comma-separated text box stands for. */
  function ParseList(text: string): (items: seq<string>)
    ensures forall i :: 0 <= i < |items| ==> items[i] != "" && IsTrimmed(items[i]) && ',' !in items[i]
  {
    var pieces := Split(text, ',');
    var trimmed := TrimAll(pieces);
    var items := DropEmpty(trimmed);
    TrimmedPieces(pieces);
    items
  }

  /** Trimming comma-free pieces leaves trimmed, comma-free pieces. */
  lemma TrimmedPieces(pieces: seq<string>)
    requires forall i :: 0 <= i < |pieces| ==> ',' !in pieces[i]
    ensures forall x :: x in TrimAll(pieces) ==> IsTrimmed(x) && ',' !in x
  {
    var trimmed := TrimAll(pieces);
    forall x | x in trimmed ensures IsTrimmed(x) && ',' !in x {
      var j :| 0 <= j < |trimmed| && trimmed[j] == x;
      assert x == Trim(pieces[j]) && ',' !in pieces[j];
    }
  }

  lemma {:induction false} TrimAllConcat(a: seq<string>, b: seq<string>)
    ensures TrimAll(a + b) == TrimAll(a) + TrimAll(b)
  {
    if a != [] {
      assert (a + b)[1..] == a[1..] + b;
      TrimAllConcat(a[1..], b);
    }
  }

  lemma {:induction false} DropEmptyConcat(a: seq<string>, b: seq<string>)
    ensures DropEmpty(a + b) == DropEmpty(a) + DropEmpty(b)
  {
    if a != [] {
      assert (a + b)[0] == a[0];
      assert (a + b)[1..] == a[1..] + b;
      DropEmptyConcat(a[1..], b);
      var h := if a[0] == "" then [] else [a[0]];
      assert DropEmpty(a + b) == h + DropEmpty(a[1..] + b);
      assert DropEmpty(a) == h + DropEmpty(a[1..]);
      assert h + (DropEmpty(a[1..]) + DropEmpty(b)) == (h + DropEmpty(a[1..])) + DropEmpty(b);
    } else {
      assert a + b == b;
    }
  }

  /** Items keep their input order: the list of `a,b` is the list of `a` then the list of `b`. */
  lemma ParseConcat(a: string, b: string)
    ensures ParseList(a + [','] + b) == ParseList(a) + ParseList(b)
  {
    SplitConcat(a, b, ',');
    TrimAllConcat(Split(a, ','), Split(b, ','));
    DropEmptyConcat(TrimAll(Split(a, ',')), TrimAll(Split(b, ',')));
  }

  /** A text without commas is one item, or none when it is blank. */
  lemma ParseSingle(text: string)
    requires ',' !in text
    ensures ParseList(text) == if AllWhitespace(text) then [] else [Trim(text)]
  {
    SplitFree(text, ',');
  }

  /** Leading whitespace in front of a trimmed non-empty string is all that trim removes. */
  lemma {:induction false} TrimPadded(pad: string, x: string)
    requires AllWhitespace(pad) && x != [] && IsTrimmed(x)
    ensures Trim(pad + x) == x
  {
    TrimStartPadded(pad, x);
  }

  lemma {:induction false} TrimStartPadded(pad: string, x: string)
    requires AllWhitespace(pad) && x != [] && !IsWhitespace(x[0])
    ensures TrimStart(pad + x) == x
  {
    if pad != [] {
      assert (pad + x)[1..] == pad[1..] + x;
      TrimStartPadded(pad[1..], x);
    }
  }

  /**
   * The profile form shows a stored list as `list.join(", ")`; parsing that
   * text on save gives back the same list, provided its items are what a
   * parse produces (non-empty, trimmed, comma-free).
   */
  lemma ParseJoin(items: seq<string>)
    requires forall i :: 0 <= i < |items| ==> items[i] != "" && IsTrimmed(items[i]) && ',' !in items[i]
    ensures ParseList(Join(items, ", ")) == items
  {
    if items == [] {
      ParseSingle("");
    } else {
      var pieces := Padded("", items);
      PaddedJoin("", items);
      assert "" + Join(items, ", ") == Join(items, ", ");
      PaddedCommaFree("", items);
      SplitJoin(pieces, ',');
      TrimAllPadded("", items);
    }
  }

  /** The pieces `list.join(", ")` splits into at the commas: the first item behind `pad`, the rest behind a space. */
  function Padded(pad: string, items: seq<string>): (r: seq<string>)
    ensures |r| == |items|
    decreases items
  {
    if items == [] then [] else [pad + items[0]] + Padded(" ", items[1..])
  }

  lemma {:induction false} PaddedJoin(pad: string, items: seq<string>)
    requires |items| >= 1
    ensures pad + Join(items, ", ") == Join(Padded(pad, items), [','])
    decreases items
  {
    if |items| >= 2 {
      var rest := Join(items[1..], ", ");
      PaddedJoin(" ", items[1..]);
      assert Join(items, ", ") == items[0] + ", " + rest;
      assert pad + Join(items, ", ") == (pad + items[0]) + [','] + (" " + rest);
    }
  }

  lemma {:induction false} PaddedCommaFree(pad: string, items: seq<string>)
    requires ',' !in pad
    requires forall i :: 0 <= i < |items| ==> ',' !in items[i]
    ensures forall i :: 0 <= i < |items| ==> ',' !in Padded(pad, items)[i]
    decreases items
  {
    if items != [] {
      PaddedCommaFree(" ", items[1..]);
      forall i | 0 <= i < |items| ensures ',' !in Padded(pad, items)[i] {
        if i > 0 {
          assert Padded(pad, items)[i] == Padded(" ", items[1..])[i - 1];
        }
      }
    }
  }

  lemma {:induction false} PaddedAt(pad: string, items: seq<string>, i: int)
    requires 0 <= i < |items|
    ensures Padded(pad, items)[i] == (if i == 0 then pad else " ") + items[i]
    decreases items
  {
    if i > 0 {
      PaddedAt(" ", items[1..], i - 1);
    }
  }

  lemma TrimAllPadded(pad: string, items: seq<string>)
    requires AllWhitespace(pad)
    requires forall i :: 0 <= i < |items| ==> items[i] != "" && IsTrimmed(items[i])
    ensures TrimAll(Padded(pad, items)) == items
  {
    var t := TrimAll(Padded(pad, items));
    forall i | 0 <= i < |items| ensures t[i] == items[i] {
      PaddedAt(pad, items, i);
      if i == 0 {
        TrimPadded(pad, items[0]);
      } else {
        assert AllWhitespace(" ");
        TrimPadded(" ", items[i]);
      }
    }
  }
}
