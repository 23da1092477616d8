/** Exactly which access checks share their memo key with another one (decision_memo.go). */
module MemoKeyCollisions {
  import opened Wrappers
  import opened Joined
  import opened DecisionMemo

  /** A check and the acting tenant it is asked for. */
  datatype Question = Question(check: AccessCheck, tenant: Option<string>) {
    function Key(): string {
      MemoKey(check, tenant)
    }
  }

  /** An acting tenant is the text of a UUID: nothing of it but this is needed. */
  predicate TenantText(tenant: Option<string>) {
    tenant.Some? ==> MEMO_SEP !in tenant.value && tenant.value != MEMO_ABSENT
  }

  /** Neither optional field holds the marker that stands for its absence. */
  predicate Unmarked(q: Question) {
    q.check.scope != MEMO_ABSENT && q.check.subjectId != MEMO_ABSENT
  }

  /** A field holds a separator that could be the one between two fields. At the very start of the subject, or the
      very end of the scope, it cannot be: the field left of it, or right of it, would be empty. */
  predicate InnerSeparator(check: AccessCheck) {
    || MEMO_SEP in check.resourceId || MEMO_SEP in check.action
    || (check.subjectId != "" && MEMO_SEP in check.subjectId[1..])
    || (check.scope != "" && MEMO_SEP in check.scope[..|check.scope| - 1])
  }

  // ----- a key and its pieces -----------------------------------------------------------------

  function TenantPart(tenant: Option<string>): string {
    tenant.GetOr(MEMO_ABSENT)
  }

  /** The pieces of a key are those of its fields, one after the other. */
  lemma KeyPieces(q: Question)
    requires TenantText(q.tenant)
    ensures Split(q.Key(), MEMO_SEP) ==
            [TenantPart(q.tenant)] + Split(Part(q.check.subjectId), MEMO_SEP) + Split(q.check.resourceId, MEMO_SEP)
            + Split(q.check.action, MEMO_SEP) + Split(Part(q.check.scope), MEMO_SEP)
  {
    var parts := KeyParts(q.check, q.tenant);
    assert parts[..2] == parts[..1] + [parts[1]] && parts[..3] == parts[..2] + [parts[2]];
    assert parts[..4] == parts[..3] + [parts[3]] && parts == parts[..4] + [parts[4]];
    JoinAppends(parts[..1], parts[1], MEMO_SEP);
    JoinAppends(parts[..2], parts[2], MEMO_SEP);
    JoinAppends(parts[..3], parts[3], MEMO_SEP);
    JoinAppends(parts[..4], parts[4], MEMO_SEP);
    SplitWhole(parts[0], MEMO_SEP);
    SplitAppends(Join(parts[..1], MEMO_SEP), parts[1], MEMO_SEP);
    SplitAppends(Join(parts[..2], MEMO_SEP), parts[2], MEMO_SEP);
    SplitAppends(Join(parts[..3], MEMO_SEP), parts[3], MEMO_SEP);
    SplitAppends(Join(parts[..4], MEMO_SEP), parts[4], MEMO_SEP);
  }

  /** A string is told by its pieces. */
  lemma PiecesTellString(s: string, other: string)
    ensures Split(s, MEMO_SEP) == Split(other, MEMO_SEP) ==> s == other
  {
    SplitThenJoin(s, MEMO_SEP);
    SplitThenJoin(other, MEMO_SEP);
  }

  lemma OnePiece(s: string)
    ensures |Split(s, MEMO_SEP)| == 1 ==> Split(s, MEMO_SEP)[0] == s
  {
    SplitThenJoin(s, MEMO_SEP);
  }

  lemma TwoPieces(x: string, y: string)
    requires MEMO_SEP !in x && MEMO_SEP !in y
    ensures Split(x + [MEMO_SEP] + y, MEMO_SEP) == [x, y]
  {
    SplitAppends(x, y, MEMO_SEP);
    SplitWhole(x, MEMO_SEP);
    SplitWhole(y, MEMO_SEP);
  }

  /** A string with no separator after its first character, and another whose first piece is the same: the other
      has as many pieces at least. */
  lemma FirstPieceForces(s: string, other: string)
    requires s != "" && other != "" && MEMO_SEP !in s[1..]
    requires Split(s, MEMO_SEP)[0] == Split(other, MEMO_SEP)[0]
    ensures |Split(s, MEMO_SEP)| <= |Split(other, MEMO_SEP)|
  {
    OnePiece(other);
    if s[0] == MEMO_SEP {
      assert s == "" + [MEMO_SEP] + s[1..];
      TwoPieces("", s[1..]);
    } else {
      SplitWhole(s, MEMO_SEP);
    }
  }

  /** The same from the other end. */
  lemma LastPieceForces(init: string, last: char, other: string)
    requires other != "" && MEMO_SEP !in init
    requires Last(Split(init + [last], MEMO_SEP)) == Last(Split(other, MEMO_SEP))
    ensures |Split(init + [last], MEMO_SEP)| <= |Split(other, MEMO_SEP)|
  {
    OnePiece(other);
    SplitWhole(init, MEMO_SEP);
    SplitOneMore(init, last, MEMO_SEP);
  }

  function Last(pieces: seq<string>): string
    requires pieces != []
  {
    pieces[|pieces| - 1]
  }

  /** The same pieces after one tenant or another, cut into four runs twice. */
  lemma SamePieces(t: string, a: seq<string>, b: seq<string>, c: seq<string>, d: seq<string>,
                   t': string, a': seq<string>, b': seq<string>, c': seq<string>, d': seq<string>)
    requires [t] + a + b + c + d == [t'] + a' + b' + c' + d'
    requires a != [] && a' != [] && d != [] && d' != []
    ensures t == t' && a[0] == a'[0] && Last(d) == Last(d') && a + b + c + d == a' + b' + c' + d'
  {
    var whole := [t] + a + b + c + d;
    assert whole[0] == t && whole[0] == t' && whole[1] == a[0] && whole[1] == a'[0];
    assert whole[|whole| - 1] == Last(d) && whole[|whole| - 1] == Last(d');
    assert whole[1..] == a + b + c + d && whole[1..] == a' + b' + c' + d';
  }

  /** Runs of pieces of the same lengths, one after another, are equal run by run. */
  lemma SameRuns(a: seq<string>, b: seq<string>, c: seq<string>, d: seq<string>,
                 a': seq<string>, b': seq<string>, c': seq<string>, d': seq<string>)
    requires a + b + c + d == a' + b' + c' + d'
    requires |a| <= |a'| && |b| <= |b'| && |c| <= |c'| && |d| <= |d'|
    ensures a == a' && b == b' && c == c' && d == d'
  {
    var whole := a + b + c + d;
    assert |a| == |a'| && |b| == |b'| && |c| == |c'|;
    assert whole[..|a|] == a && whole[..|a|] == a';
    assert whole[|a|..|a + b|] == b && whole[|a|..|a + b|] == b';
    assert whole[|a + b|..|a + b + c|] == c && whole[|a + b|..|a + b + c|] == c';
    assert whole[|a + b + c|..] == d && whole[|a + b + c|..] == d';
  }

  // ----- who shares a key ---------------------------------------------------------------------

  /** The pieces of a key after the tenant's. */
  function FieldPieces(q: Question): seq<string> {
    Split(Part(q.check.subjectId), MEMO_SEP) + Split(q.check.resourceId, MEMO_SEP)
    + Split(q.check.action, MEMO_SEP) + Split(Part(q.check.scope), MEMO_SEP)
  }

  lemma SameKeySamePieces(q: Question, other: Question)
    requires TenantText(q.tenant) && TenantText(other.tenant) && other.Key() == q.Key()
    ensures q.tenant == other.tenant && FieldPieces(q) == FieldPieces(other)
    ensures Split(Part(q.check.subjectId), MEMO_SEP)[0] == Split(Part(other.check.subjectId), MEMO_SEP)[0]
    ensures Last(Split(Part(q.check.scope), MEMO_SEP)) == Last(Split(Part(other.check.scope), MEMO_SEP))
  {
    KeyPieces(q);
    KeyPieces(other);
    SamePieces(TenantPart(q.tenant), Split(Part(q.check.subjectId), MEMO_SEP), Split(q.check.resourceId, MEMO_SEP),
               Split(q.check.action, MEMO_SEP), Split(Part(q.check.scope), MEMO_SEP),
               TenantPart(other.tenant), Split(Part(other.check.subjectId), MEMO_SEP),
               Split(other.check.resourceId, MEMO_SEP), Split(other.check.action, MEMO_SEP),
               Split(Part(other.check.scope), MEMO_SEP));
  }

  /** Without an inner separator a question's key is its own. */
  lemma KeyIsItsOwn(q: Question, other: Question)
    requires TenantText(q.tenant) && Unmarked(q) && !InnerSeparator(q.check)
    requires TenantText(other.tenant) && Unmarked(other) && other.Key() == q.Key()
    ensures other == q
  {
    SameKeySamePieces(q, other);
    var u, r, a, c := Part(q.check.subjectId), q.check.resourceId, q.check.action, Part(q.check.scope);
    var u', r' := Part(other.check.subjectId), other.check.resourceId;
    var a', c' := other.check.action, Part(other.check.scope);
    var init, last := c[..|c| - 1], c[|c| - 1];
    assert c == init + [last];
    FirstPieceForces(u, u');
    LastPieceForces(init, last, c');
    SplitWhole(r, MEMO_SEP);
    SplitWhole(a, MEMO_SEP);
    SameRuns(Split(u, MEMO_SEP), Split(r, MEMO_SEP), Split(a, MEMO_SEP), Split(c, MEMO_SEP),
             Split(u', MEMO_SEP), Split(r', MEMO_SEP), Split(a', MEMO_SEP), Split(c', MEMO_SEP));
    PiecesTellString(u, u');
    PiecesTellString(r, r');
    PiecesTellString(a, a');
    PiecesTellString(c, c');
  }

  /** A field without the marker that makes the same part. */
  function Unmark(s: string): string {
    if s == MEMO_ABSENT then "" else s
  }

  lemma SplitAt(s: string, i: nat)
    requires i < |s| && s[i] == MEMO_SEP
    ensures s == s[..i] + [MEMO_SEP] + s[i + 1..]
  {
  }

  /** With an inner separator another question has the same key. */
  lemma AnotherHasTheKey(q: Question) returns (other: Question)
    requires TenantText(q.tenant) && Unmarked(q) && InnerSeparator(q.check)
    ensures TenantText(other.tenant) && Unmarked(other) && other.Key() == q.Key() && other != q
  {
    var check := q.check;
    if MEMO_SEP in check.resourceId {
      var i :| 0 <= i < |check.resourceId| && check.resourceId[i] == MEMO_SEP;
      var x, y := check.resourceId[..i], check.resourceId[i + 1..];
      SplitAt(check.resourceId, i);
      SeparatorCollides(check, q.tenant, x, y);
      other := q.(check := check.(resourceId := x, action := y + [MEMO_SEP] + check.action));
      assert check == check.(resourceId := x + [MEMO_SEP] + y);
      assert |other.check.resourceId| < |check.resourceId|;
    } else if MEMO_SEP in check.action {
      var i :| 0 <= i < |check.action| && check.action[i] == MEMO_SEP;
      var x, y := check.action[..i], check.action[i + 1..];
      SplitAt(check.action, i);
      SeparatorCollides(check.(action := y), q.tenant, check.resourceId, x);
      other := q.(check := check.(resourceId := check.resourceId + [MEMO_SEP] + x, action := y));
      assert check == check.(action := x + [MEMO_SEP] + y);
      assert |other.check.resourceId| > |check.resourceId|;
    } else if check.subjectId != "" && MEMO_SEP in check.subjectId[1..] {
      var j :| 0 <= j < |check.subjectId[1..]| && check.subjectId[1..][j] == MEMO_SEP;
      var x, y := check.subjectId[..j + 1], check.subjectId[j + 2..];
      SplitAt(check.subjectId, j + 1);
      SeparatorCollides(check, q.tenant, x, y);
      var moved := check.(subjectId := x, resourceId := y + [MEMO_SEP] + check.resourceId);
      MarkerCollides(moved, q.tenant);
      other := q.(check := moved.(subjectId := Unmark(x)));
      assert check == check.(subjectId := x + [MEMO_SEP] + y);
      assert |other.check.resourceId| > |check.resourceId|;
    } else {
      var i :| 0 <= i < |check.scope| - 1 && check.scope[i] == MEMO_SEP;
      var x, y := check.scope[..i], check.scope[i + 1..];
      SplitAt(check.scope, i);
      SeparatorCollides(check.(scope := y), q.tenant, check.action, x);
      var moved := check.(scope := y, action := check.action + [MEMO_SEP] + x);
      MarkerCollides(moved, q.tenant);
      other := q.(check := moved.(scope := Unmark(y)));
      assert check == check.(scope := x + [MEMO_SEP] + y);
      assert |other.check.action| > |check.action|;
    }
  }

  ghost predicate SharesItsKey(q: Question) {
    exists other: Question :: TenantText(other.tenant) && Unmarked(other) && other.Key() == q.Key() && other != q
  }

  /** Among questions that do not hold the marker, one shares its key with another exactly when it holds an inner
      separator. */
  lemma SharedExactlyByInnerSeparators(q: Question)
    requires TenantText(q.tenant) && Unmarked(q)
    ensures SharesItsKey(q) <==> InnerSeparator(q.check)
  {
    if InnerSeparator(q.check) {
      var other := AnotherHasTheKey(q);
    } else if SharesItsKey(q) {
      var other: Question :| TenantText(other.tenant) && Unmarked(other) && other.Key() == q.Key() && other != q;
      KeyIsItsOwn(q, other);
    }
  }

  ghost predicate SharesWithAny(q: Question) {
    exists other: Question :: TenantText(other.tenant) && other.Key() == q.Key() && other != q
  }

  /** Among all questions: exactly when an optional field is absent or holds the marker, or there is an inner
      separator. */
  lemma SharedAmongAll(q: Question)
    requires TenantText(q.tenant)
    ensures SharesWithAny(q) <==>
            || Part(q.check.scope) == MEMO_ABSENT || Part(q.check.subjectId) == MEMO_ABSENT
            || InnerSeparator(q.check)
  {
    var flipped := if q.check.scope == "" then MEMO_ABSENT else "";
    if Part(q.check.scope) == MEMO_ABSENT {
      var other := q.(check := q.check.(scope := flipped));
      MarkerCollides(if q.check.scope == "" then other.check else q.check, q.tenant);
      assert q.check.(scope := q.check.scope) == q.check && other.check.(scope := "") == q.check.(scope := "");
      assert other.Key() == q.Key() && other != q;
    } else if Part(q.check.subjectId) == MEMO_ABSENT {
      var other := q.(check := q.check.(subjectId := if q.check.subjectId == "" then MEMO_ABSENT else ""));
      MarkerCollides(if q.check.subjectId == "" then other.check else q.check, q.tenant);
      assert other.check.(subjectId := "") == q.check.(subjectId := "");
      assert other.Key() == q.Key() && other != q;
    } else if InnerSeparator(q.check) {
      var other := AnotherHasTheKey(q);
    } else if SharesWithAny(q) {
      var other: Question :| TenantText(other.tenant) && other.Key() == q.Key() && other != q;
      var unmarked := Question(other.check.(scope := Unmark(other.check.scope),
                                            subjectId := Unmark(other.check.subjectId)), other.tenant);
      MarkerCollides(other.check, other.tenant);
      MarkerCollides(other.check.(scope := Unmark(other.check.scope)), other.tenant);
      KeyIsItsOwn(q, unmarked);
    }
  }
}
