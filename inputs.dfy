/**
 * The two input filters: the endpoint-file line filter of `load_endpoints`
 * and the parsing of the comma-separated `--ids` argument in `main`.
 */
module Inputs {
  import opened Text

  /** An endpoint line is kept when, stripped, it is not blank and is not a `#` comment. */
  predicate KeepsLine(line: string)
  {
    var t := Strip(line);
    t != [] && !("#" <= t)
  }

  /**
   * `[ln.strip() for ln in f if ln.strip() and not ln.strip().startswith('#')]`
   * over the lines of the endpoints file.
   */
  function Endpoints(lines: seq<string>): (r: seq<string>)
    ensures |r| <= |lines|
    ensures forall k :: 0 <= k < |r| ==> r[k] != [] && r[k][0] != '#' && IsStripped(r[k])
  {
    if lines == [] then []
    else
      var head := if KeepsLine(lines[0]) then [Strip(lines[0])] else [];
      head + Endpoints(lines[1..])
  }

  /** The filter works line by line: filtering a concatenation concatenates the results. */
  lemma {:induction false} EndpointsAppend(a: seq<string>, b: seq<string>)
    ensures Endpoints(a + b) == Endpoints(a) + Endpoints(b)
  {
    if a == [] {
      assert a + b == b;
    } else {
      assert (a + b)[0] == a[0];
      assert (a + b)[1..] == a[1..] + b;
      EndpointsAppend(a[1..], b);
    }
  }

  /** One line yields its stripped text exactly when it is kept, and nothing otherwise. */
  lemma EndpointsOfLine(line: string)
    ensures Endpoints([line]) == if KeepsLine(line) then [Strip(line)] else []
  {
    assert [line][1..] == [];
  }

  /** Every kept line of the input appears in the result, and every result is some kept line. */
  lemma {:induction false} EndpointsMembership(lines: seq<string>, e: string)
    ensures e in Endpoints(lines) <==> exists j :: 0 <= j < |lines| && KeepsLine(lines[j]) && Strip(lines[j]) == e
  {
    if lines != [] {
      EndpointsMembership(lines[1..], e);
      if e in Endpoints(lines[1..]) {
        var j :| 0 <= j < |lines[1..]| && KeepsLine(lines[1..][j]) && Strip(lines[1..][j]) == e;
        assert lines[j + 1] == lines[1..][j];
      }
      if exists j :: 0 <= j < |lines| && KeepsLine(lines[j]) && Strip(lines[j]) == e {
        var j :| 0 <= j < |lines| && KeepsLine(lines[j]) && Strip(lines[j]) == e;
        if j > 0 {
          assert lines[1..][j - 1] == lines[j];
        }
      }
    }
  }

  /** `[x.strip() for x in pieces if x.strip()]`. */
  function NonBlankStripped(pieces: seq<string>): (r: seq<string>)
    ensures |r| <= |pieces|
    ensures forall k :: 0 <= k < |r| ==> r[k] != [] && IsStripped(r[k])
  {
    if pieces == [] then []
    else
      var head := if Strip(pieces[0]) != [] then [Strip(pieces[0])] else [];
      head + NonBlankStripped(pieces[1..])
  }

  /** Pieces are filtered one by one and in order: the result for `a + b` is that for `a`, then that for `b`. */
  lemma {:induction false} NonBlankStrippedAppend(a: seq<string>, b: seq<string>)
    ensures NonBlankStripped(a + b) == NonBlankStripped(a) + NonBlankStripped(b)
  {
    if a == [] {
      assert a + b == b;
    } else {
      assert (a + b)[0] == a[0];
      assert (a + b)[1..] == a[1..] + b;
      NonBlankStrippedAppend(a[1..], b);
    }
  }

  /** A string is kept exactly when it is the non-blank stripped text of some piece. */
  lemma {:induction false} NonBlankStrippedMembership(pieces: seq<string>, x: string)
    ensures x in NonBlankStripped(pieces) <==> exists j :: 0 <= j < |pieces| && Strip(pieces[j]) != [] && Strip(pieces[j]) == x
  {
    if pieces != [] {
      NonBlankStrippedMembership(pieces[1..], x);
      if x in NonBlankStripped(pieces[1..]) {
        var j :| 0 <= j < |pieces[1..]| && Strip(pieces[1..][j]) != [] && Strip(pieces[1..][j]) == x;
        assert pieces[j + 1] == pieces[1..][j];
      }
      if exists j :: 0 <= j < |pieces| && Strip(pieces[j]) != [] && Strip(pieces[j]) == x {
        var j :| 0 <= j < |pieces| && Strip(pieces[j]) != [] && Strip(pieces[j]) == x;
        if j > 0 {
          assert pieces[1..][j - 1] == pieces[j];
        }
      }
    }
  }

  /** One piece yields its stripped text when that is not blank, and nothing otherwise. */
  lemma NonBlankStrippedOfPiece(piece: string)
    ensures NonBlankStripped([piece]) == if Strip(piece) != [] then [Strip(piece)] else []
  {
    assert [piece][1..] == [];
  }

  /** The identifier list of `main`: the comma-separated pieces, stripped, blanks dropped. */
  function ParseIds(arg: string): (ids: seq<string>)
    ensures forall k :: 0 <= k < |ids| ==> ids[k] != [] && IsStripped(ids[k]) && ',' !in ids[k]
  {
    var pieces := Split(arg, ',');
    var ids := NonBlankStripped(pieces);
    NonBlankStrippedNoComma(pieces);
    ids
  }

  /**
   * An identifier is parsed exactly when it is the non-blank stripped text of
   * one of the argument's comma-separated pieces.
   */
  lemma ParseIdsMembership(arg: string, pieces: seq<string>, x: string)
    requires pieces == Split(arg, ',')
    ensures x in ParseIds(arg) <==> exists j :: 0 <= j < |pieces| && Strip(pieces[j]) != [] && Strip(pieces[j]) == x
  {
    NonBlankStrippedMembership(pieces, x);
  }

  lemma {:induction false} NonBlankStrippedNoComma(pieces: seq<string>)
    requires forall k :: 0 <= k < |pieces| ==> ',' !in pieces[k]
    ensures forall k :: 0 <= k < |NonBlankStripped(pieces)| ==> ',' !in NonBlankStripped(pieces)[k]
  {
    if pieces != [] {
      NonBlankStrippedNoComma(pieces[1..]);
      var s := Strip(pieces[0]);
      StripIsSlice(pieces[0]);
    }
  }

  /** Pieces that are already clean pass through unchanged. */
  lemma {:induction false} NonBlankStrippedOfClean(ids: seq<string>)
    requires forall k :: 0 <= k < |ids| ==> ids[k] != [] && IsStripped(ids[k])
    ensures NonBlankStripped(ids) == ids
  {
    if ids != [] {
      NonBlankStrippedCons(ids);
      NonBlankStrippedOfClean(ids[1..]);
      assert [ids[0]] + ids[1..] == ids;
    }
  }

  lemma NonBlankStrippedCons(ids: seq<string>)
    requires ids != [] && ids[0] != [] && IsStripped(ids[0])
    ensures NonBlankStripped(ids) == [ids[0]] + NonBlankStripped(ids[1..])
  {
    StripOfStripped(ids[0]);
  }

  /**
   * Round trip: writing a list of clean identifiers (non-empty, already
   * stripped, no comma) as a comma-separated argument and parsing it gives the
   * list back.
   */
  lemma ParseIdsJoin(ids: seq<string>)
    requires |ids| >= 1
    requires forall k :: 0 <= k < |ids| ==> ids[k] != [] && IsStripped(ids[k]) && ',' !in ids[k]
    ensures ParseIds(Join(ids, ',')) == ids
  {
    SplitJoin(ids, ',');
    NonBlankStrippedOfClean(ids);
  }
}
