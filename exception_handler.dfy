/**
 * The global exception handler: each exception type becomes an HTTP status
 * and a failed envelope with a machine-readable error code. Validation
 * failures are grouped by field, each field keeping its messages in the
 * order they were reported.
 */
module ExceptionHandling {
  import opened Wrappers
  import opened Exceptions
  import opened Entities
  import opened Responses

  datatype HttpStatus = NOT_FOUND | BAD_REQUEST | FORBIDDEN | INTERNAL_SERVER_ERROR {
    function Code(): int {
      match this
      case NOT_FOUND => 404
      case BAD_REQUEST => 400
      case FORBIDDEN => 403
      case INTERNAL_SERVER_ERROR => 500
    }
  }

  /** `ResponseEntity<ApiResponse<Void>>`. */
  datatype ResponseEntity = ResponseEntity(status: HttpStatus, body: ApiResponse<()>)

  const ValidationMessage: string := "Doğrulama hatası"
  const ValidationDetails: string := "Girilen bilgiler geçersiz"
  const GeneralMessage: string := "Bir hata oluştu"

  /** An error with a code and details only. */
  function Details(code: string, details: Option<string>): ErrorDetails {
    ErrorDetails(Some(code), details, None, None)
  }

  //
  // Grouping of field errors
  //

  /** The fields that have at least one error. */
  function FieldsOf(errors: seq<FieldError>): set<string> {
    set i | 0 <= i < |errors| :: errors[i].field
  }

  /** The messages reported for `field`, in the order they were reported. */
  function MessagesFor(errors: seq<FieldError>, field: string): seq<string> {
    if errors == [] then []
    else
      var last := errors[|errors| - 1];
      MessagesFor(errors[..|errors| - 1], field) + (if last.field == field then [last.defaultMessage] else [])
  }

  /** The `fieldErrors` map: every field with errors, to its messages. */
  function Grouped(errors: seq<FieldError>): map<string, seq<string>> {
    map field | field in FieldsOf(errors) :: MessagesFor(errors, field)
  }

  /**
   * Concatenating error lists concatenates each field's messages, and a
   * single error contributes its message to its own field only.
   */
  lemma {:induction false} MessagesForAppend(a: seq<FieldError>, b: seq<FieldError>, field: string)
    ensures MessagesFor(a + b, field) == MessagesFor(a, field) + MessagesFor(b, field)
    ensures |b| == 1 ==> MessagesFor(b, field) == if b[0].field == field then [b[0].defaultMessage] else []
    decreases |b|
  {
    if b == [] {
      assert a + b == a;
    } else if |b| == 1 {
      assert b[..0] == [];
      assert (a + b)[..|a + b| - 1] == a;
    } else {
      var b' := b[..|b| - 1];
      assert (a + b)[..|a + b| - 1] == a + b';
      MessagesForAppend(a, b', field);
    }
  }

  /**
   * The grouping keeps exactly the fields that have errors, and a field's
   * list holds one message per error on it. With `MessagesForAppend` and
   * the single-error case this pins down the order as encounter order.
   */
  lemma {:induction false} GroupedCharacterized(errors: seq<FieldError>, field: string)
    ensures field in Grouped(errors) <==> exists i :: 0 <= i < |errors| && errors[i].field == field
    ensures field in Grouped(errors) ==> |Grouped(errors)[field]| > 0
    ensures field !in Grouped(errors) ==> MessagesFor(errors, field) == []
    decreases |errors|
  {
    if errors != [] {
      var init := errors[..|errors| - 1];
      GroupedCharacterized(init, field);
      if errors[|errors| - 1].field != field {
        assert FieldsOf(errors) == FieldsOf(init) + {errors[|errors| - 1].field} by {
          forall f | f in FieldsOf(errors) ensures f in FieldsOf(init) + {errors[|errors| - 1].field} {
            var i :| 0 <= i < |errors| && errors[i].field == f;
            if i < |errors| - 1 { assert init[i] == errors[i]; }
          }
          forall f | f in FieldsOf(init) ensures f in FieldsOf(errors) {
            var i :| 0 <= i < |init| && init[i].field == f;
            assert errors[i] == init[i];
          }
        }
        if field in Grouped(init) {
          var i :| 0 <= i < |init| && init[i].field == field;
          assert errors[i] == init[i];
        }
        if exists i :: 0 <= i < |errors| && errors[i].field == field {
          var i :| 0 <= i < |errors| && errors[i].field == field;
          assert init[i] == errors[i];
        }
      } else {
        assert errors[|errors| - 1].field in FieldsOf(errors);
      }
    }
  }

  /** `handleValidationException`'s loop: `computeIfAbsent(field, new list).add(message)` per error. */
  method GroupFieldErrors(errors: seq<FieldError>) returns (fieldErrors: map<string, seq<string>>)
    ensures fieldErrors == Grouped(errors)
  {
    fieldErrors := map[];
    var i := 0;
    while i < |errors|
      invariant 0 <= i <= |errors|
      invariant fieldErrors == Grouped(errors[..i])
    {
      var error := errors[i];
      if error.field !in fieldErrors {
        fieldErrors := fieldErrors[error.field := []];
      }
      fieldErrors := fieldErrors[error.field := fieldErrors[error.field] + [error.defaultMessage]];
      GroupedStep(errors[..i], error);
      assert errors[..i + 1] == errors[..i] + [error];
      i := i + 1;
    }
    assert errors[..|errors|] == errors;
  }

  /** Adding one error to the grouped map, as the loop body does. */
  lemma GroupedStep(errors: seq<FieldError>, error: FieldError)
    ensures Grouped(errors + [error]) ==
      Grouped(errors)[error.field := (if error.field in Grouped(errors) then Grouped(errors)[error.field] else []) + [error.defaultMessage]]
  {
    var after := errors + [error];
    assert after[..|after| - 1] == errors;
    assert FieldsOf(after) == FieldsOf(errors) + {error.field} by {
      forall f | f in FieldsOf(after) ensures f in FieldsOf(errors) + {error.field} {
        var i :| 0 <= i < |after| && after[i].field == f;
        if i < |errors| { assert errors[i] == after[i]; }
      }
      forall f | f in FieldsOf(errors) ensures f in FieldsOf(after) {
        var i :| 0 <= i < |errors| && errors[i].field == f;
        assert after[i] == errors[i];
      }
      assert after[|errors|].field == error.field;
    }
    GroupedCharacterized(errors, error.field);
    forall f | f in FieldsOf(after)
      ensures MessagesFor(after, f) == if f == error.field then MessagesFor(errors, f) + [error.defaultMessage] else MessagesFor(errors, f)
    {
    }
  }

  //
  // The five handlers
  //

  function HandleNotFoundException(ex: Exception, now: Instant): (r: ResponseEntity)
    requires ex.NotFound?
    ensures r.status.Code() == 404 && !r.body.success && r.body.data.None?
    ensures r.body.message == Some(ex.message)
    ensures r.body.error == Some(Details("NOT_FOUND", Some(ex.message)))
  {
    ResponseEntity(NOT_FOUND, Error(Some(ex.message), Some(Details("NOT_FOUND", Some(ex.message))), now))
  }

  function HandleBusinessException(ex: Exception, now: Instant): (r: ResponseEntity)
    requires ex.Business?
    ensures r.status.Code() == 400 && !r.body.success && r.body.data.None?
    ensures r.body.message == Some(ex.message)
    ensures r.body.error == Some(Details("BUSINESS_ERROR", Some(ex.message)))
  {
    ResponseEntity(BAD_REQUEST, Error(Some(ex.message), Some(Details("BUSINESS_ERROR", Some(ex.message))), now))
  }

  function HandleUnauthorizedException(ex: Exception, now: Instant): (r: ResponseEntity)
    requires ex.Unauthorized?
    ensures r.status.Code() == 403 && !r.body.success && r.body.data.None?
    ensures r.body.message == Some(ex.message)
    ensures r.body.error == Some(Details("UNAUTHORIZED", Some(ex.message)))
  {
    ResponseEntity(FORBIDDEN, Error(Some(ex.message), Some(Details("UNAUTHORIZED", Some(ex.message))), now))
  }

  /** The validation handler's envelope for a given grouping. */
  function ValidationResponse(fieldErrors: map<string, seq<string>>, now: Instant): ResponseEntity {
    ResponseEntity(BAD_REQUEST,
      Error(Some(ValidationMessage), Some(ErrorDetails(Some("VALIDATION_ERROR"), Some(ValidationDetails), Some(fieldErrors), None)), now))
  }

  method HandleValidationException(ex: Exception, now: Instant) returns (r: ResponseEntity)
    requires ex.ArgumentNotValid?
    ensures r.status.Code() == 400 && !r.body.success && r.body.data.None?
    ensures r.body.message == Some(ValidationMessage)
    ensures r.body.error.Some? && r.body.error.value.code == Some("VALIDATION_ERROR")
    ensures r.body.error.value.details == Some(ValidationDetails)
    ensures r.body.error.value.fieldErrors == Some(Grouped(ex.errors))
    ensures r == Handle(ex, now)
  {
    var fieldErrors := GroupFieldErrors(ex.errors);
    r := ValidationResponse(fieldErrors, now);
  }

  /** The catch-all handler: a fixed message, the exception's own message as details. */
  function HandleGeneralException(ex: Exception, now: Instant): (r: ResponseEntity)
    ensures r.status.Code() == 500 && !r.body.success && r.body.data.None?
    ensures r.body.message == Some(GeneralMessage)
    ensures r.body.error == Some(Details("INTERNAL_SERVER_ERROR", MessageOf(ex)))
  {
    ResponseEntity(INTERNAL_SERVER_ERROR, Error(Some(GeneralMessage), Some(Details("INTERNAL_SERVER_ERROR", MessageOf(ex))), now))
  }

  /**
   * The handler Spring selects for an exception: the one declared for its
   * class, and the catch-all for every other class.
   */
  function Handle(ex: Exception, now: Instant): (r: ResponseEntity)
    ensures !r.body.success && r.body.data.None? && r.body.error.Some?
    ensures ex.NotFound? ==> r.status == NOT_FOUND && r.body.error.value.code == Some("NOT_FOUND")
    ensures ex.Business? ==> r.status == BAD_REQUEST && r.body.error.value.code == Some("BUSINESS_ERROR")
    ensures ex.Unauthorized? ==> r.status == FORBIDDEN && r.body.error.value.code == Some("UNAUTHORIZED")
    ensures ex.ArgumentNotValid? ==>
      && r.status == BAD_REQUEST && r.body.error.value.code == Some("VALIDATION_ERROR")
      && r.body.error.value.fieldErrors == Some(Grouped(ex.errors))
    ensures !(ex.NotFound? || ex.Business? || ex.Unauthorized? || ex.ArgumentNotValid?) ==>
      && r.status == INTERNAL_SERVER_ERROR && r.body.error.value.code == Some("INTERNAL_SERVER_ERROR")
      && r.body.message == Some(GeneralMessage)
  {
    match ex
    case NotFound(_) => HandleNotFoundException(ex, now)
    case Business(_) => HandleBusinessException(ex, now)
    case Unauthorized(_) => HandleUnauthorizedException(ex, now)
    case ArgumentNotValid(errors) => ValidationResponse(Grouped(errors), now)
    case _ => HandleGeneralException(ex, now)
  }

  /**
   * Every handled exception yields a failed, consistent envelope, and the
   * status is 4xx exactly for the exceptions the core raises on purpose.
   */
  lemma EveryHandlerFails(ex: Exception, now: Instant)
    ensures !Handle(ex, now).body.success && Handle(ex, now).body.Consistent()
    ensures Handle(ex, now).body.error.Some? && Handle(ex, now).body.error.value.code.Some?
    ensures Handle(ex, now).status.Code() < 500 <==> ex.NotFound? || ex.Business? || ex.Unauthorized? || ex.ArgumentNotValid?
  {
  }
}
