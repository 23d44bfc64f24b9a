/**
 * The request gate: the bearer-token check that runs before every route, and the
 * check of the `sql` parameter that `/query` and `/pdf` run before touching the database.
 */
module Gate {
  import opened Wrappers
  import opened Text

  /** The 400 message for a missing or empty `sql` parameter. */
  const SqlRequired := "SQL query is required"
  /** The 400 message for a statement that does not start with `select`. */
  const OnlySelect := "Only SELECT queries are allowed"
  /** The lower-case prefix every accepted statement must have once stripped. */
  const SelectKeyword := "select"

  /** The routes of the service, with the query-string parameter each one reads. */
  datatype Route =
    | Home                       // GET /
    | Query(sql: Option<string>) // GET /query?sql=...
    | Pdf(sql: Option<string>)   // GET /pdf?sql=...

  /** What the gate looks at in a request: the route and the `Authorization` header, if any. */
  datatype Request = Request(route: Route, authorization: Option<string>)

  /** The outcome of the checks that run before any database work. */
  datatype Verdict = Unauthorized | BadRequest(message: string) | Accepted

  /** The header carries exactly `Bearer <token>`; anything else, or no header, fails. */
  predicate Authorized(header: Option<string>, token: string) {
    header == Some("Bearer " + token)
  }

  /** The check of the `sql` parameter, in the order the handlers run it: presence, then prefix. */
  function SqlVerdict(sql: Option<string>): (v: Verdict)
    ensures v != Unauthorized
    ensures v == BadRequest(SqlRequired) <==> (sql == None || sql == Some(""))
    ensures v.BadRequest? ==> v.message == SqlRequired || v.message == OnlySelect
    ensures v.Accepted? ==> sql.Some? && StartsWith(Lower(Strip(sql.value)), SelectKeyword)
  {
    if sql.None? || sql.value == "" then BadRequest(SqlRequired)
    else if !StartsWith(Lower(Strip(sql.value)), SelectKeyword) then BadRequest(OnlySelect)
    else Accepted
  }

  /** The whole gate: the token check first, for every route, then the route's own `sql` check. */
  function Gate(req: Request, token: string): (v: Verdict)
    ensures v == Unauthorized <==> !Authorized(req.authorization, token)
    ensures req.authorization == None ==> v == Unauthorized
    ensures req.route.Home? ==> (v == Accepted <==> Authorized(req.authorization, token))
    ensures !req.route.Home? && Authorized(req.authorization, token) ==> v == SqlVerdict(req.route.sql)
  {
    if !Authorized(req.authorization, token) then Unauthorized
    else match req.route
      case Home => Accepted
      case Query(sql) => SqlVerdict(sql)
      case Pdf(sql) => SqlVerdict(sql)
  }

  /** `/query` and `/pdf` give the same statement the same verdict and the same message. */
  lemma SameValidation(sql: Option<string>, header: Option<string>, token: string)
    ensures Gate(Request(Query(sql), header), token) == Gate(Request(Pdf(sql), header), token)
  {
  }

  /** A non-empty statement made only of whitespace passes the presence check and fails the prefix check. */
  lemma WhitespaceOnlyRejected(s: string)
    requires s != "" && AllSpace(s)
    ensures SqlVerdict(Some(s)) == BadRequest(OnlySelect)
  {
    assert Strip(s) == [];
  }

  /**
   * An independent reading of the prefix check: after some run of whitespace,
   * the next six characters spell `select` in any mixture of case.
   */
  predicate SelectAt(s: string, k: nat) {
    k + |SelectKeyword| <= |s| && AllSpace(s[..k]) && Lower(s[k..k + |SelectKeyword|]) == SelectKeyword
  }

  /** A statement is accepted exactly when it reads `select` after its leading whitespace. */
  lemma AcceptedIff(s: string)
    ensures SqlVerdict(Some(s)) == Accepted <==> exists k: nat :: SelectAt(s, k)
  {
    if SqlVerdict(Some(s)) == Accepted {
      var k := AcceptedSelectAt(s);
    }
    if k: nat :| SelectAt(s, k) {
      SelectAtAccepted(s, k);
    }
  }

  /** An accepted statement reads `select` right after its leading whitespace. */
  lemma AcceptedSelectAt(s: string) returns (k: nat)
    requires StartsWith(Lower(Strip(s)), SelectKeyword)
    ensures SelectAt(s, k)
  {
    var n := |SelectKeyword|;
    var m := Strip(s);
    var a, b := StripSplits(s);
    k := |a|;
    assert s[..k] == a;
    assert s[k..k + n] == m[..n];
    LowerAppend(m[..n], m[n..]);
    assert m == m[..n] + m[n..];
  }

  /** A statement that reads `select` after its leading whitespace passes the prefix check. */
  lemma SelectAtAccepted(s: string, k: nat)
    requires SelectAt(s, k)
    ensures StartsWith(Lower(Strip(s)), SelectKeyword)
  {
    var n := |SelectKeyword|;
    var w := s[k..k + n];
    assert LowerChar(w[0]) == 's' && LowerChar(w[n - 1]) == 't';
    StripStartsWith(s, k, w);
    var m := Strip(s);
    assert m == w + m[n..];
    LowerAppend(w, m[n..]);
  }

  /** A word with non-space ends that follows the leading whitespace survives `Strip` as its prefix. */
  lemma StripStartsWith(s: string, k: nat, w: string)
    requires k + |w| <= |s| && AllSpace(s[..k]) && s[k..k + |w|] == w
    requires w != [] && !IsSpace(w[0]) && !IsSpace(w[|w| - 1])
    ensures StartsWith(Strip(s), w)
  {
    assert s[k] == w[0];
    assert LeadingSpace(s) == k;
    var t := s[k..];
    assert t[|w| - 1] == w[|w| - 1];
    assert TrailingSpace(t) <= |t| - |w|;
    assert Strip(s) == t[..|t| - TrailingSpace(t)];
  }

  /** Adding or removing whitespace around a non-empty statement never changes its verdict. */
  lemma PaddingInvariant(before: string, s: string, after: string)
    requires s != "" && AllSpace(before) && AllSpace(after)
    ensures SqlVerdict(Some(before + s + after)) == SqlVerdict(Some(s))
  {
    var a, b := StripSplits(s);
    var m := Strip(s);
    assert before + s + after == (before + a) + m + (b + after);
    assert AllSpace(before + a) && AllSpace(b + after);
    StripUnique(before + a, m, b + after);
  }

  /** Changing the case of letters in a statement never changes its verdict. */
  lemma CaseInvariant(s: string, t: string)
    requires Lower(s) == Lower(t)
    ensures SqlVerdict(Some(s)) == SqlVerdict(Some(t))
  {
    LowerStripCommute(s);
    LowerStripCommute(t);
  }

  /** The test is a plain prefix test: a statement such as `selectfoo` is let through. */
  lemma PrefixOnly()
    ensures SqlVerdict(Some("selectfoo")) == Accepted
  {
    var q := "selectfoo";
    assert q[..0] == [] && q[0..6] == "select";
    SelectAtAccepted(q, 0);
  }

  /** Case and surrounding whitespace do not matter to the prefix check. */
  lemma MixedCaseAccepted()
    ensures SqlVerdict(Some("  SeLeCt * FROM T\n")) == Accepted
  {
    var q := "  SeLeCt * FROM T\n";
    assert q[..2] == "  " && q[2..8] == "SeLeCt";
    SelectAtAccepted(q, 2);
  }

  /** Any other statement is turned away. */
  lemma UpdateRejected()
    ensures SqlVerdict(Some("update T set A = 1")) == BadRequest(OnlySelect)
  {
    var u := "update T set A = 1";
    forall k: nat ensures !SelectAt(u, k) {
      if k > 0 && k + |SelectKeyword| <= |u| {
        assert u[..k][0] == 'u' && !IsSpace('u');
        assert !AllSpace(u[..k]);
      } else if k == 0 {
        assert Lower(u[0..6])[0] == 'u' && SelectKeyword[0] == 's';
        assert Lower(u[0..6]) != SelectKeyword;
      }
    }
    if StartsWith(Lower(Strip(u)), SelectKeyword) {
      var k := AcceptedSelectAt(u);
      assert false;
    }
  }
}
