/**
 * Request-body validation for the wallet and auth endpoints.
 *
 * JSON decoding is an input: `None` is a body that did not decode.
 * The go-playground validator is represented by the field errors that the
 * struct tags of WalletRequest (`required`, `required,gt=0`) and UserParams
 * (`required`, `required`) produce, in field order, at most one per field.
 */
module Validations {
  import opened Wrappers
  import opened Models
  import Strings

  /** One validator.FieldError: the struct field and the tag that failed. */
  datatype FieldError = FieldError(field: string, tag: string)

  const Separator := ", "

  // ---------------------------------------------------------------- wallet

  /** What the tags on WalletRequest report for a decoded body. */
  function WalletTagErrors(req: WalletRequest): (errs: seq<FieldError>)
    ensures errs == [] <==> req.txnId != NilUuid && req.amount > 0
  {
    (if req.txnId == NilUuid then [FieldError("TxnId", "required")] else [])
    + (if req.amount == 0 then [FieldError("Amount", "required")]
       else if req.amount < 0 then [FieldError("Amount", "gt")]
       else [])
  }

  /** The message (none or one) formatWalletValidationError adds for one field error. */
  function WalletMessage(e: FieldError): seq<string>
  {
    match e.field
    case "Amount" =>
      if e.tag == "required" then ["amount is required"]
      else if e.tag == "gt" then ["amount must be greater than 0"]
      else []
    case "TxnId" => ["txn_id is required"]
    case _ => []
  }

  /** The messages for a list of field errors, in the order of the errors. */
  function WalletMessages(errs: seq<FieldError>): seq<string>
  {
    if errs == [] then [] else WalletMessage(errs[0]) + WalletMessages(errs[1..])
  }

  lemma {:induction false} WalletMessagesAppend(a: seq<FieldError>, b: seq<FieldError>)
    ensures WalletMessages(a + b) == WalletMessages(a) + WalletMessages(b)
  {
    if a != [] {
      assert (a + b)[1..] == a[1..] + b;
      WalletMessagesAppend(a[1..], b);
    } else {
      assert a + b == b;
    }
  }

  /** A text is among the messages exactly when some field error maps to it. */
  lemma {:induction false} WalletMessagesFrom(errs: seq<FieldError>, m: string)
    ensures m in WalletMessages(errs) <==> exists k :: 0 <= k < |errs| && WalletMessage(errs[k]) == [m]
  {
    if errs != [] {
      WalletMessagesFrom(errs[1..], m);
      if m in WalletMessages(errs) && WalletMessage(errs[0]) != [m] {
        var k :| 0 <= k < |errs[1..]| && WalletMessage(errs[1..][k]) == [m];
        assert WalletMessage(errs[k + 1]) == [m];
      }
      if exists k :: 0 <= k < |errs| && WalletMessage(errs[k]) == [m] {
        var k :| 0 <= k < |errs| && WalletMessage(errs[k]) == [m];
        if k > 0 {
          assert WalletMessage(errs[1..][k - 1]) == [m];
        }
      }
    }
  }

  /** No message at all exactly when no field error is one the formatter knows. */
  lemma {:induction false} WalletMessagesNone(errs: seq<FieldError>)
    ensures WalletMessages(errs) == [] <==> forall k :: 0 <= k < |errs| ==> WalletMessage(errs[k]) == []
  {
    if errs != [] {
      WalletMessagesNone(errs[1..]);
      if WalletMessages(errs) == [] {
        forall k | 0 <= k < |errs| ensures WalletMessage(errs[k]) == [] {
          if k > 0 { assert errs[k] == errs[1..][k - 1]; }
        }
      }
    }
  }

  /**
   * formatWalletValidationError: the messages joined with ", ", or
   * ErrInvalidInput when no field error produced one.
   */
  method FormatWalletValidationError(errs: seq<FieldError>) returns (err: Error)
    ensures WalletMessages(errs) == [] ==> err == ErrInvalidInput
    ensures WalletMessages(errs) != [] ==> err == Plain(Strings.Join(WalletMessages(errs), Separator))
  {
    var errorMessages: seq<string> := [];
    for i := 0 to |errs|
      invariant errorMessages == WalletMessages(errs[..i])
    {
      var e := errs[i];
      if e.field == "Amount" {
        if e.tag == "required" {
          errorMessages := errorMessages + ["amount is required"];
        } else if e.tag == "gt" {
          errorMessages := errorMessages + ["amount must be greater than 0"];
        }
      } else if e.field == "TxnId" {
        errorMessages := errorMessages + ["txn_id is required"];
      }
      assert errs[..i + 1] == errs[..i] + [e];
      WalletMessagesAppend(errs[..i], [e]);
    }
    assert errs[..|errs|] == errs;
    if |errorMessages| == 0 {
      return ErrInvalidInput;
    }
    return Plain(Strings.Join(errorMessages, Separator));
  }

  /**
   * ValidateWalletInput: an undecodable body is ErrInvalidBody; a body the
   * tags reject is the formatted message; otherwise the body is returned
   * unchanged, with a non-nil transaction id and a positive amount.
   */
  method ValidateWalletInput(body: Option<WalletRequest>) returns (r: Result<WalletRequest, Error>)
    ensures body.None? ==> r == Failure(ErrInvalidBody)
    ensures r.Success? <==> body.Some? && body.value.txnId != NilUuid && body.value.amount > 0
    ensures r.Success? ==> r.value == body.value
    ensures body.Some? && r.Failure? ==>
              r.error == Plain(Strings.Join(WalletMessages(WalletTagErrors(body.value)), Separator))
  {
    if body.None? {
      return Failure(ErrInvalidBody);
    }
    var input := body.value;
    var errs := WalletTagErrors(input);
    if errs != [] {
      var err := FormatWalletValidationError(errs);
      assert WalletMessage(errs[0]) != [];
      assert WalletMessages(errs) != [];
      return Failure(err);
    }
    return Success(WalletRequest(input.txnId, input.amount));
  }

  /** The messages each malformed wallet body yields. */
  lemma WalletBodyMessages(txnId: Uuid, amount: Int64)
    ensures amount == 0 && txnId != NilUuid ==>
              WalletMessages(WalletTagErrors(WalletRequest(txnId, amount))) == ["amount is required"]
    ensures amount < 0 && txnId != NilUuid ==>
              WalletMessages(WalletTagErrors(WalletRequest(txnId, amount))) == ["amount must be greater than 0"]
    ensures amount > 0 && txnId == NilUuid ==>
              WalletMessages(WalletTagErrors(WalletRequest(txnId, amount))) == ["txn_id is required"]
    ensures amount == 0 && txnId == NilUuid ==>
              Strings.Join(WalletMessages(WalletTagErrors(WalletRequest(txnId, amount))), Separator)
              == "txn_id is required, amount is required"
  {
    var errs := WalletTagErrors(WalletRequest(txnId, amount));
    if amount == 0 && txnId != NilUuid {
      assert errs == [FieldError("Amount", "required")];
      assert WalletMessages(errs) == WalletMessage(errs[0]) + WalletMessages([]);
    } else if amount < 0 && txnId != NilUuid {
      assert errs == [FieldError("Amount", "gt")];
      assert WalletMessages(errs) == WalletMessage(errs[0]) + WalletMessages([]);
    } else if amount > 0 && txnId == NilUuid {
      assert errs == [FieldError("TxnId", "required")];
      assert WalletMessages(errs) == WalletMessage(errs[0]) + WalletMessages([]);
    } else if amount == 0 && txnId == NilUuid {
      assert errs == [FieldError("TxnId", "required"), FieldError("Amount", "required")];
      assert errs[1..] == [FieldError("Amount", "required")];
      assert WalletMessages(errs[1..]) == WalletMessage(errs[1]) + WalletMessages([]);
      assert WalletMessages(errs) == ["txn_id is required", "amount is required"];
      assert Strings.Join(["amount is required"], Separator) == "amount is required";
    }
  }

  // ------------------------------------------------------------------ auth

  /** What the tags on UserParams report for a decoded body. */
  function AuthTagErrors(p: UserParams): (errs: seq<FieldError>)
    ensures errs == [] <==> p.username != "" && p.password != ""
  {
    (if p.username == "" then [FieldError("Username", "required")] else [])
    + (if p.password == "" then [FieldError("Password", "required")] else [])
  }

  /** The message (none or one) formatValidationError adds for one field error. */
  function AuthMessage(e: FieldError): seq<string>
  {
    match e.field
    case "Username" => ["email is required"]
    case "Password" =>
      if e.tag == "required" then ["password is required"]
      else if e.tag == "min" then ["password must be at least 8 characters long"]
      else []
    case _ => []
  }

  function AuthMessages(errs: seq<FieldError>): seq<string>
  {
    if errs == [] then [] else AuthMessage(errs[0]) + AuthMessages(errs[1..])
  }

  lemma {:induction false} AuthMessagesAppend(a: seq<FieldError>, b: seq<FieldError>)
    ensures AuthMessages(a + b) == AuthMessages(a) + AuthMessages(b)
  {
    if a != [] {
      assert (a + b)[1..] == a[1..] + b;
      AuthMessagesAppend(a[1..], b);
    } else {
      assert a + b == b;
    }
  }

  /** A text is among the messages exactly when some field error maps to it. */
  lemma {:induction false} AuthMessagesFrom(errs: seq<FieldError>, m: string)
    ensures m in AuthMessages(errs) <==> exists k :: 0 <= k < |errs| && AuthMessage(errs[k]) == [m]
  {
    if errs != [] {
      AuthMessagesFrom(errs[1..], m);
      if m in AuthMessages(errs) && AuthMessage(errs[0]) != [m] {
        var k :| 0 <= k < |errs[1..]| && AuthMessage(errs[1..][k]) == [m];
        assert AuthMessage(errs[k + 1]) == [m];
      }
      if exists k :: 0 <= k < |errs| && AuthMessage(errs[k]) == [m] {
        var k :| 0 <= k < |errs| && AuthMessage(errs[k]) == [m];
        if k > 0 {
          assert AuthMessage(errs[1..][k - 1]) == [m];
        }
      }
    }
  }

  /** No message at all exactly when no field error is one the formatter knows. */
  lemma {:induction false} AuthMessagesNone(errs: seq<FieldError>)
    ensures AuthMessages(errs) == [] <==> forall k :: 0 <= k < |errs| ==> AuthMessage(errs[k]) == []
  {
    if errs != [] {
      AuthMessagesNone(errs[1..]);
      if AuthMessages(errs) == [] {
        forall k | 0 <= k < |errs| ensures AuthMessage(errs[k]) == [] {
          if k > 0 { assert errs[k] == errs[1..][k - 1]; }
        }
      }
    }
  }

  /**
   * formatValidationError: the messages joined with ", ", or
   * ErrInvalidInput when no field error produced one.
   */
  method FormatValidationError(errs: seq<FieldError>) returns (err: Error)
    ensures AuthMessages(errs) == [] ==> err == ErrInvalidInput
    ensures AuthMessages(errs) != [] ==> err == Plain(Strings.Join(AuthMessages(errs), Separator))
  {
    var errorMessages: seq<string> := [];
    for i := 0 to |errs|
      invariant errorMessages == AuthMessages(errs[..i])
    {
      var e := errs[i];
      if e.field == "Username" {
        errorMessages := errorMessages + ["email is required"];
      } else if e.field == "Password" {
        if e.tag == "required" {
          errorMessages := errorMessages + ["password is required"];
        } else if e.tag == "min" {
          errorMessages := errorMessages + ["password must be at least 8 characters long"];
        }
      }
      assert errs[..i + 1] == errs[..i] + [e];
      AuthMessagesAppend(errs[..i], [e]);
    }
    assert errs[..|errs|] == errs;
    if |errorMessages| == 0 {
      return ErrInvalidInput;
    }
    return Plain(Strings.Join(errorMessages, Separator));
  }

  /**
   * ValidateAuthInput: an undecodable body is ErrInvalidBody; an empty
   * username or password is the formatted message; otherwise the body is
   * returned unchanged. No length is demanded of the password.
   */
  method ValidateAuthInput(body: Option<UserParams>) returns (r: Result<UserParams, Error>)
    ensures body.None? ==> r == Failure(ErrInvalidBody)
    ensures r.Success? <==> body.Some? && body.value.username != "" && body.value.password != ""
    ensures r.Success? ==> r.value == body.value
    ensures body.Some? && r.Failure? ==>
              r.error == Plain(Strings.Join(AuthMessages(AuthTagErrors(body.value)), Separator))
  {
    if body.None? {
      return Failure(ErrInvalidBody);
    }
    var input := body.value;
    var errs := AuthTagErrors(input);
    if errs != [] {
      var err := FormatValidationError(errs);
      assert AuthMessage(errs[0]) != [];
      assert AuthMessages(errs) != [];
      return Failure(err);
    }
    return Success(UserParams(input.username, input.password));
  }

  /**
   * The 8-character message is never produced for a request body: the tags
   * on UserParams declare no `min`, so only "required" errors arise.
   */
  lemma {:induction false} NoMinMessageForBodies(p: UserParams)
    ensures "password must be at least 8 characters long" !in AuthMessages(AuthTagErrors(p))
  {
    var errs := AuthTagErrors(p);
    AuthMessagesFrom(errs, "password must be at least 8 characters long");
  }
}
