/**
  W3C trace context checks of the live protocol. The Python side splits the tracestate at commas
  and checks each member; the C++ side scans it once with an index. Sections 3.2 and 3.3 of W3C
  Trace Context define the headers; both sides restrict them further.
*/
module TraceState {
  const MEMBER_LIMIT: nat := 32
  const LENGTH_LIMIT: nat := 512

  predicate Hex(c: char) { '0' <= c <= '9' || 'a' <= c <= 'f' }

  predicate AllHex(s: string) { forall i :: 0 <= i < |s| ==> Hex(s[i]) }

  predicate AllZero(s: string) { forall i :: 0 <= i < |s| ==> s[i] == '0' }

  /** `00-<32 hex>-<16 hex>-<2 hex>` with neither id all zero. */
  predicate ValidTraceparent(s: string) {
    && |s| == 55 && s[0] == '0' && s[1] == '0' && s[2] == '-' && s[35] == '-' && s[52] == '-'
    && AllHex(s[3..35]) && AllHex(s[36..52]) && AllHex(s[53..55])
    && !AllZero(s[3..35]) && !AllZero(s[36..52])
  }

  predicate Visible(c: char) { 0x20 as char <= c <= 0x7E as char }

  predicate Ascii(s: string) { forall i :: 0 <= i < |s| ==> s[i] < 0x80 as char }

  /** Python's whitespace among ASCII: the blank, tab to carriage return, and the four separators. */
  predicate AsciiWhitespace(c: char) {
    c == ' ' || 0x09 as char <= c <= 0x0D as char || 0x1C as char <= c <= 0x1F as char
  }

  /** `member != member.strip()` fails exactly when neither end is whitespace. */
  predicate Stripped(member: string) {
    member == "" || (!AsciiWhitespace(member[0]) && !AsciiWhitespace(member[|member| - 1]))
  }

  predicate MemberAccepted(member: string) {
    && member != ""
    && '=' in member
    && Stripped(member)
    && forall i :: 0 <= i < |member| ==> Visible(member[i])
  }

  function Split(s: string): (r: seq<string>)
    ensures |r| >= 1
  {
    if s == "" then [""]
    else if s[|s| - 1] == ',' then Split(s[..|s| - 1]) + [""]
    else
      var r := Split(s[..|s| - 1]);
      r[..|r| - 1] + [r[|r| - 1] + [s[|s| - 1]]]
  }

  function Join(members: seq<string>): string
    requires members != []
  {
    if |members| == 1 then members[0]
    else Join(members[..|members| - 1]) + "," + members[|members| - 1]
  }

  predicate CommaFree(pieces: seq<string>) { forall i :: 0 <= i < |pieces| ==> ',' !in pieces[i] }

  lemma JoinClose(pieces: seq<string>)
    requires pieces != [] && CommaFree(pieces)
    ensures Join(pieces + [""]) == Join(pieces) + "," && CommaFree(pieces + [""])
  {
    assert (pieces + [""])[..|pieces|] == pieces;
    assert Join(pieces) + "," + "" == Join(pieces) + ",";
  }

  lemma JoinGrow(pieces: seq<string>, c: char)
    requires pieces != [] && CommaFree(pieces) && c != ','
    ensures var grown := pieces[..|pieces| - 1] + [pieces[|pieces| - 1] + [c]];
            Join(grown) == Join(pieces) + [c] && CommaFree(grown)
  {
    var closed, last := pieces[..|pieces| - 1], pieces[|pieces| - 1];
    var grown := closed + [last + [c]];
    assert grown[..|grown| - 1] == closed;
    if closed != [] {
      assert Join(closed) + "," + (last + [c]) == Join(closed) + "," + last + [c];
    }
  }

  /** `Split` is the inverse of joining with commas, and no piece holds a comma. */
  lemma {:induction false} SplitJoins(s: string)
    ensures Join(Split(s)) == s && CommaFree(Split(s))
  {
    if s == "" {
    } else {
      var init, c := s[..|s| - 1], s[|s| - 1];
      assert s == init + [c];
      SplitJoins(init);
      if c == ',' { JoinClose(Split(init)); } else { JoinGrow(Split(init), c); }
    }
  }

  /** The Python validator of a present tracestate. */
  predicate PythonAccepts(s: string) {
    && Ascii(s)
    && |s| <= 512 && |Split(s)| <= 32
    && forall i :: 0 <= i < |Split(s)| ==> MemberAccepted(Split(s)[i])
  }

  /** What the C++ scanner asks of one member once its characters are known to be visible. */
  predicate MemberScans(member: string) {
    member != "" && member[0] != ' ' && member[|member| - 1] != ' ' && '=' in member
  }

  lemma MembersAgree(member: string)
    ensures MemberAccepted(member) <==>
              MemberScans(member) && forall i :: 0 <= i < |member| ==> Visible(member[i])
  {
  }

  /** All members of `s` behind its last comma. */
  function LastMember(s: string): string { Split(s)[|Split(s)| - 1] }

  /** The closed members of `s`: all but the one behind its last comma. */
  function Closed(s: string): seq<string> { Split(s)[..|Split(s)| - 1] }

  predicate AllScan(members: seq<string>) {
    forall i :: 0 <= i < |members| ==> MemberScans(members[i])
  }

  predicate AllVisible(s: string) { forall i :: 0 <= i < |s| ==> Visible(s[i]) }

  lemma VisibleAppend(s: string, c: char)
    ensures AllVisible(s + [c]) <==> AllVisible(s) && Visible(c)
  {
    assert (s + [c])[|s|] == c;
    assert forall i :: 0 <= i < |s| ==> (s + [c])[i] == s[i];
  }

  predicate PiecesVisible(pieces: seq<string>) { forall i :: 0 <= i < |pieces| ==> AllVisible(pieces[i]) }

  lemma PiecesAppend(pieces: seq<string>, last: string)
    ensures PiecesVisible(pieces + [last]) <==> PiecesVisible(pieces) && AllVisible(last)
  {
    assert (pieces + [last])[|pieces|] == last;
    assert forall i :: 0 <= i < |pieces| ==> (pieces + [last])[i] == pieces[i];
  }

  lemma PiecesGrow(closed: seq<string>, last: string, c: char)
    ensures PiecesVisible(closed + [last + [c]]) <==> PiecesVisible(closed + [last]) && Visible(c)
  {
    PiecesAppend(closed, last);
    PiecesAppend(closed, last + [c]);
    VisibleAppend(last, c);
  }

  lemma {:induction false} VisibleBySplit(s: string)
    ensures AllVisible(s) <==> PiecesVisible(Split(s))
  {
    if s == "" {
      assert Split(s) == [""];
      PiecesAppend([], "");
    } else {
      var init, c := s[..|s| - 1], s[|s| - 1];
      var r := Split(init);
      var closed, last := r[..|r| - 1], r[|r| - 1];
      assert s == init + [c] && r == closed + [last];
      VisibleBySplit(init);
      VisibleAppend(init, c);
      if c == ',' { PiecesAppend(r, ""); } else { PiecesGrow(closed, last, c); }
    }
  }

  /** The specification both sides meet, member by member. */
  predicate Accepted(s: string) {
    |s| <= LENGTH_LIMIT && |Split(s)| <= MEMBER_LIMIT && AllVisible(s) && AllScan(Split(s))
  }

  lemma PythonMeets(s: string)
    ensures PythonAccepts(s) <==> Accepted(s)
  {
    VisibleBySplit(s);
    forall i | 0 <= i < |Split(s)|
      ensures MemberAccepted(Split(s)[i]) <==> MemberScans(Split(s)[i]) && AllVisible(Split(s)[i])
    {
      MembersAgree(Split(s)[i]);
    }
    if AllVisible(s) {
      assert Ascii(s);
    }
  }

  lemma {:induction false} SplitStep(s: string, i: nat)
    requires i < |s|
    ensures var before, after := Split(s[..i]), Split(s[..i + 1]);
            if s[i] == ',' then after == before + [""]
            else after == before[..|before| - 1] + [before[|before| - 1] + [s[i]]]
  {
    assert s[..i + 1][..i] == s[..i];
  }

  lemma {:induction false} RejectedMemberStays(s: string, i: nat, k: nat)
    requires i <= |s| && k < |Split(s[..i])| - 1
    ensures k < |Split(s)| - 1 && Split(s)[k] == Split(s[..i])[k]
    decreases |s|
  {
    if i == |s| {
      assert s[..i] == s;
    } else {
      var init := s[..|s| - 1];
      assert init[..i] == s[..i];
      RejectedMemberStays(init, i, k);
    }
  }

  /** A member the scanner refuses when it closes is a member of the whole string. */
  lemma {:induction false} RejectMember(s: string, start: nat, index: nat)
    requires start <= index <= |s| && (index < |s| ==> s[index] == ',')
    requires s[start..index] == LastMember(s[..index]) && !MemberScans(s[start..index])
    ensures !AllScan(Split(s))
  {
    var k := |Split(s[..index])| - 1;
    if index == |s| {
      assert s[..index] == s;
    } else {
      SplitStep(s, index);
      RejectedMemberStays(s, index + 1, k);
    }
    assert !MemberScans(Split(s)[k]);
  }

  /** What the scanner knows about the part of `s` before `index`. */
  ghost predicate Scanned(s: string, members: nat, start: nat, index: nat) {
    && start <= index <= |s| && members == |Split(s[..index])|
    && s[start..index] == LastMember(s[..index])
    && AllScan(Closed(s[..index])) && AllVisible(s[..index])
  }

  lemma VisibleNext(s: string, index: nat)
    requires index < |s| && AllVisible(s[..index]) && Visible(s[index])
    ensures AllVisible(s[..index + 1])
  {
    assert s[..index + 1] == s[..index] + [s[index]];
    VisibleAppend(s[..index], s[index]);
  }

  lemma {:induction false} ScanPlain(s: string, members: nat, start: nat, index: nat)
    requires Scanned(s, members, start, index) && index < |s| && Visible(s[index]) && s[index] != ','
    ensures Scanned(s, members, start, index + 1)
  {
    SplitStep(s, index);
    VisibleNext(s, index);
    var before, after := Split(s[..index]), Split(s[..index + 1]);
    assert after[..|after| - 1] == before[..|before| - 1];
    assert s[start..index + 1] == s[start..index] + [s[index]];
  }

  lemma ScanMore(members: seq<string>, last: string)
    requires AllScan(members) && MemberScans(last)
    ensures AllScan(members + [last])
  {
  }

  lemma {:induction false} ScanComma(s: string, members: nat, start: nat, index: nat)
    requires Scanned(s, members, start, index) && index < |s| && s[index] == ',' && MemberScans(s[start..index])
    ensures Scanned(s, members + 1, index + 1, index + 1)
  {
    SplitStep(s, index);
    VisibleNext(s, index);
    var before, after := Split(s[..index]), Split(s[..index + 1]);
    ScanMore(before[..|before| - 1], s[start..index]);
    assert before == before[..|before| - 1] + [s[start..index]];
    assert after[..|after| - 1] == before;
    assert s[index + 1..index + 1] == "";
  }

  lemma {:induction false} ScanEnd(s: string, members: nat, start: nat)
    requires Scanned(s, members, start, |s|) && MemberScans(s[start..|s|])
    ensures AllScan(Split(s)) && AllVisible(s) && members == |Split(s)|
  {
    assert s[..|s|] == s;
    assert Split(s) == Closed(s) + [LastMember(s)];
  }

  /**
    The one-pass scanner: an index, the start of the current member and a member count. It accepts
    exactly the strings the split-based validator accepts.
  */
  method Scan(s: string) returns (ok: bool)
    ensures ok <==> PythonAccepts(s)
  {
    PythonMeets(s);
    if |s| > LENGTH_LIMIT { return false; }
    var members, start, index := 1, 0, 0;
    while index <= |s|
      invariant 0 <= index <= |s| + 1 && start >= 0 && members >= 1
      invariant index <= |s| ==> Scanned(s, members, start, index)
      invariant index == |s| + 1 ==> AllScan(Split(s)) && AllVisible(s) && members == |Split(s)|
    {
      if index < |s| {
        if !Visible(s[index]) { return false; }
        if s[index] != ',' { ScanPlain(s, members, start, index); }
      }
      if index == |s| || s[index] == ',' {
        if !MemberScans(s[start..index]) { RejectMember(s, start, index); }
        if index == start { return false; }
        var member := s[start..index];
        if member[0] == ' ' || member[|member| - 1] == ' ' || '=' !in member { return false; }
        if index == |s| { ScanEnd(s, members, start); }
        if index < |s| {
          ScanComma(s, members, start, index);
          members := members + 1;
        }
        start := index + 1;
      }
      index := index + 1;
    }
    ok := members <= MEMBER_LIMIT;
  }

  /** Lower-case hexadecimal digits of the given number. */
  predicate IsHex(s: string, n: nat) {
    |s| == n && forall i :: 0 <= i < n ==> '0' <= s[i] <= '9' || 'a' <= s[i] <= 'f'
  }

  /** Version 00, a trace id, a parent id and flags; neither id is all zero. */
  ghost predicate HasParts(s: string, trace: string, parent: string, flags: string) {
    && s == "00-" + trace + "-" + parent + "-" + flags
    && IsHex(trace, 32) && IsHex(parent, 16) && IsHex(flags, 2)
    && (exists i :: 0 <= i < 32 && trace[i] != '0') && (exists i :: 0 <= i < 16 && parent[i] != '0')
  }

  lemma PartsOfValid(s: string)
    requires ValidTraceparent(s)
    ensures HasParts(s, s[3..35], s[36..52], s[53..55])
  {
    var trace, parent, flags := s[3..35], s[36..52], s[53..55];
    assert s == s[..3] + trace + s[35..36] + parent + s[52..53] + flags;
    assert s[..3] == "00-" && s[35..36] == "-" && s[52..53] == "-";
    assert AllHex(trace) && AllHex(parent) && AllHex(flags);
  }

  lemma SlicesOfParts(s: string, trace: string, parent: string, flags: string)
    requires |trace| == 32 && |parent| == 16 && |flags| == 2 && s == "00-" + trace + "-" + parent + "-" + flags
    ensures |s| == 55 && s[..3] == "00-" && s[3..35] == trace && s[35..36] == "-" && s[36..52] == parent
    ensures s[52..53] == "-" && s[53..55] == flags
  {
  }

  lemma ValidOfParts(s: string, trace: string, parent: string, flags: string)
    requires HasParts(s, trace, parent, flags)
    ensures ValidTraceparent(s)
  {
    SlicesOfParts(s, trace, parent, flags);
    assert s[0] == s[..3][0] && s[1] == s[..3][1] && s[2] == s[..3][2];
    assert s[35] == s[35..36][0] && s[52] == s[52..53][0];
    assert AllHex(trace) && AllHex(parent) && AllHex(flags);
  }

  /** A traceparent is valid exactly when it is made of those parts. */
  lemma TraceparentHasShape(s: string)
    ensures ValidTraceparent(s) <==> exists trace, parent, flags :: HasParts(s, trace, parent, flags)
  {
    if ValidTraceparent(s) { PartsOfValid(s); }
    if trace, parent, flags :| HasParts(s, trace, parent, flags) { ValidOfParts(s, trace, parent, flags); }
  }
}
