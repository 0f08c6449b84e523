/**
 * `validateAuthBody` of `backend/src/domains/auth/auth.validation.ts`: the names of the
 * required fields of a sign-up or sign-in body that are missing, joined by `", "`. A field is
 * missing when it is falsy or a string that is blank once trimmed; a truthy field that is not a
 * string has no `trim` method, and the call throws.
 */
module AuthValidation {
  import opened Wrappers
  import opened Js

  /** `sts`. */
  datatype Mode = SIGNIN | SIGNUP

  /** How `!v || v.trim() === ""` reads a field. */
  datatype Field = Given | Missing | NotAString

  function FieldOf(v: Value): (f: Field)
    ensures f == Missing <==> !Truthy(v) || (v.Str? && AllWhite(v.s))
    ensures f == NotAString <==> Truthy(v) && !v.Str?
  {
    if !Truthy(v) then Missing
    else if !v.Str? then NotAString
    else
      TrimEmptyIffAllWhite(v.s);
      if Trim(v.s) == "" then Missing else Given
  }

  /** The fields checked, in the order they are checked. */
  function Required(mode: Mode): seq<string> {
    if mode == SIGNUP then ["email", "name", "password"] else ["email", "password"]
  }

  /** The fields of `fields` that `user` is missing, in the order of `fields`. */
  function MissingOf(user: Value, fields: seq<string>): seq<string> {
    if fields == [] then []
    else (if FieldOf(Get(user, fields[0])) == Missing then [fields[0]] else []) + MissingOf(user, fields[1..])
  }

  /** Reading `user.email` throws on a nullish body, and `trim` throws on a field that is not a
      string. */
  predicate Throws(user: Value, mode: Mode) {
    Nullish(user) || exists f :: f in Required(mode) && FieldOf(Get(user, f)) == NotAString
  }

  /** `Array.prototype.join` on strings. */
  function Join(items: seq<string>, sep: string): string {
    if items == [] then ""
    else if |items| == 1 then items[0]
    else items[0] + sep + Join(items[1..], sep)
  }

  /** What `validateAuthBody` returns: `None` when it throws. */
  function Validation(user: Value, mode: Mode): Option<string> {
    if Throws(user, mode) then None else Some(Join(MissingOf(user, Required(mode)), ", "))
  }

  /** The report of one field: its name when it is missing. */
  function Flag(user: Value, f: string): seq<string> {
    if FieldOf(Get(user, f)) == Missing then [f] else []
  }

  lemma MissingOfRequired(user: Value, mode: Mode)
    ensures MissingOf(user, Required(mode)) ==
      Flag(user, "email") + (if mode == SIGNUP then Flag(user, "name") else []) + Flag(user, "password")
  {
    var r := Required(mode);
    var last := ["password"];
    assert last[1..] == [];
    assert MissingOf(user, last) == Flag(user, "password") + [];
    if mode == SIGNUP {
      var tail := ["name", "password"];
      assert r[1..] == tail && tail[1..] == last;
      assert MissingOf(user, tail) == Flag(user, "name") + MissingOf(user, last);
    } else {
      assert r[1..] == last;
    }
    assert MissingOf(user, r) == Flag(user, "email") + MissingOf(user, r[1..]);
  }

  lemma ThrowsIff(user: Value, mode: Mode)
    ensures Throws(user, mode) <==>
      || Nullish(user) || FieldOf(Get(user, "email")) == NotAString
      || (mode == SIGNUP && FieldOf(Get(user, "name")) == NotAString)
      || FieldOf(Get(user, "password")) == NotAString
  {
    assert "email" in Required(mode) && "password" in Required(mode);
    if mode == SIGNUP {
      assert "name" in Required(mode);
    }
  }

  /** `validateAuthBody(user, mode)`: `missing` is built push by push, then joined. */
  method ValidateAuthBody(user: Value, mode: Mode) returns (r: Option<string>)
    ensures r == Validation(user, mode)
  {
    MissingOfRequired(user, mode);
    ThrowsIff(user, mode);
    if Nullish(user) {
      return None;
    }
    var missing: seq<string> := [];
    var email := FieldOf(Get(user, "email"));
    if email == NotAString {
      return None;
    }
    if email == Missing {
      missing := missing + ["email"];
    }
    assert missing == Flag(user, "email");
    if mode == SIGNUP {
      var name := FieldOf(Get(user, "name"));
      if name == NotAString {
        return None;
      }
      if name == Missing {
        missing := missing + ["name"];
      }
    }
    assert missing == Flag(user, "email") + (if mode == SIGNUP then Flag(user, "name") else []);
    var password := FieldOf(Get(user, "password"));
    if password == NotAString {
      return None;
    }
    if password == Missing {
      missing := missing + ["password"];
    }
    assert missing == MissingOf(user, Required(mode));
    r := Some(Join(missing, ", "));
  }

  // ---------------------------------------------------------------------------------------
  // Properties

  /** Joining non-empty names gives the empty string only for no names. */
  lemma {:induction false} JoinEmptyIff(items: seq<string>, sep: string)
    requires forall i :: 0 <= i < |items| ==> items[i] != ""
    ensures Join(items, sep) == "" <==> items == []
    decreases |items|
  {
    if |items| > 1 {
      assert items[0] != "";
      assert |Join(items, sep)| >= |items[0]|;
    } else if |items| == 1 {
      assert items[0] != "";
    }
  }

  /** A name is reported exactly when it is one of the fields and that field is missing. */
  lemma {:induction false} MissingIff(user: Value, fields: seq<string>)
    ensures forall f :: f in MissingOf(user, fields) <==> f in fields && FieldOf(Get(user, f)) == Missing
    decreases |fields|
  {
    if fields != [] {
      MissingIff(user, fields[1..]);
      var head := if FieldOf(Get(user, fields[0])) == Missing then [fields[0]] else [];
      assert MissingOf(user, fields) == head + MissingOf(user, fields[1..]);
      forall f
        ensures f in MissingOf(user, fields) <==> f in fields && FieldOf(Get(user, f)) == Missing
      {
        assert f in fields <==> f == fields[0] || f in fields[1..];
      }
    }
  }

  lemma {:induction false} NoneMissing(user: Value, fields: seq<string>)
    requires forall f :: f in fields ==> FieldOf(Get(user, f)) != Missing
    ensures MissingOf(user, fields) == []
    decreases |fields|
  {
    if fields != [] {
      assert fields[0] in fields;
      NoneMissing(user, fields[1..]);
    }
  }

  /** The report names no field twice and follows the order email, name, password. */
  lemma ReportOrder(user: Value, mode: Mode)
    ensures var m := MissingOf(user, Required(mode));
      && (forall i, j :: 0 <= i < j < |m| ==> m[i] != m[j])
      && (forall i, j :: 0 <= i < j < |m| ==> FieldRank(m[i]) < FieldRank(m[j]))
  {
    MissingOfRequired(user, mode);
    var e, n, p := Flag(user, "email"), if mode == SIGNUP then Flag(user, "name") else [], Flag(user, "password");
    var m := e + n + p;
    forall i, j | 0 <= i < j < |m|
      ensures m[i] != m[j] && FieldRank(m[i]) < FieldRank(m[j])
    {
      assert forall x :: 0 <= x < |m| ==>
        if x < |e| then m[x] == "email" else if x < |e| + |n| then m[x] == "name" else m[x] == "password";
    }
  }

  /** The position of a field in the order email, name, password. */
  function FieldRank(f: string): int {
    if f == "email" then 0 else if f == "name" then 1 else 2
  }

  /** The body passes (the empty string) exactly when it does not throw and every required
      field is a string that is not blank once trimmed. */
  lemma AcceptedIff(user: Value, mode: Mode)
    ensures Validation(user, mode) == Some("") <==>
      !Nullish(user) && forall f :: f in Required(mode) ==> FieldOf(Get(user, f)) == Given
  {
    var m := MissingOf(user, Required(mode));
    MissingIff(user, Required(mode));
    forall i | 0 <= i < |m|
      ensures m[i] != ""
    {
      assert m[i] in Required(mode);
    }
    JoinEmptyIff(m, ", ");
    ThrowsIff(user, mode);
    if Validation(user, mode) == Some("") {
      assert !Throws(user, mode) && m == [];
      forall f | f in Required(mode)
        ensures FieldOf(Get(user, f)) == Given
      {
        assert f !in m;
        assert FieldOf(Get(user, f)) != NotAString;
      }
    }
    if !Nullish(user) && forall f :: f in Required(mode) ==> FieldOf(Get(user, f)) == Given {
      assert !Throws(user, mode);
      NoneMissing(user, Required(mode));
    }
  }

  /** A field is missing when its string is blank after trimming. */
  lemma BlankIsMissing(user: Value, mode: Mode, f: string)
    requires !Throws(user, mode) && f in Required(mode) && Get(user, f).Str? && AllWhite(Get(user, f).s)
    ensures f in MissingOf(user, Required(mode))
  {
    MissingIff(user, Required(mode));
  }

  /** On sign-in the name is neither reported nor read: two bodies that differ only in their
      name validate alike. */
  lemma SigninIgnoresName(user: Value, other: Value)
    requires user.Obj? && other.Obj?
    requires forall f :: f != "name" ==> Get(user, f) == Get(other, f)
    ensures "name" !in MissingOf(user, Required(SIGNIN))
    ensures Validation(user, SIGNIN) == Validation(other, SIGNIN)
  {
    MissingIff(user, Required(SIGNIN));
    MissingOfRequired(user, SIGNIN);
    MissingOfRequired(other, SIGNIN);
    ThrowsIff(user, SIGNIN);
    ThrowsIff(other, SIGNIN);
    assert Get(user, "email") == Get(other, "email") && Get(user, "password") == Get(other, "password");
  }
}
