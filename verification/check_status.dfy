/** The middleware built by the factory `checkActiveAndNotDeleted(model)`:
    before a handler addresses one document, it checks that the id is well
    formed, that it resolves, and that the document is active and not
    deleted. The wrapper around the factory is not modelled. */
module CheckStatus {
  import opened Common

  /** A document of any model as the guard reads it: its two lifecycle flags
      and the rest of its fields. A flag that the model's schema does not
      declare reads as absent (`None`), which JavaScript treats as false. */
  datatype Doc<T> = Doc(isActive: Option<bool>, isDeleted: Option<bool>, fields: T)

  /** JavaScript truthiness of a stored flag. */
  predicate IsSet(flag: Option<bool>)
  {
    flag == Some(true)
  }

  const InvalidIdFormat := ApiError(400, "Invalid ID format")
  const DocumentNotFound := ApiError(404, "Document not found")
  const DocumentNotActive := ApiError(403, "Document is not active")
  const DocumentDeleted := ApiError(403, "Document is deleted")

  /** Reference definition: the document may be addressed by a handler. */
  predicate Live<T>(d: Doc<T>)
  {
    IsSet(d.isActive) && !IsSet(d.isDeleted)
  }

  /** The guard for an id whose format check answered `idValid`, and whose
      `findById` would answer `found`. `Ok(d)` stands for attaching `d` as
      `req.document` and calling `next()`; `Err(e)` for `next(e)`. The guard
      is a function of these two answers alone: it writes nothing. */
  function CheckActiveAndNotDeleted<T>(idValid: bool, found: Option<Doc<T>>): (r: Result<Doc<T>>)
    ensures r.Ok? <==> idValid && found.Some? && Live(found.value)
    ensures r.Ok? ==> r.value == found.value
    ensures r.Err? ==> r.error in {InvalidIdFormat, DocumentNotFound, DocumentNotActive, DocumentDeleted}
  {
    if !idValid then Err(InvalidIdFormat)
    else match found
      case None => Err(DocumentNotFound)
      case Some(document) =>
        if !IsSet(document.isActive) then Err(DocumentNotActive)
        else if IsSet(document.isDeleted) then Err(DocumentDeleted)
        else Ok(document)
  }

  /** A malformed id is refused with 400 whatever the store holds: the
      answer of the lookup is never consulted. */
  lemma MalformedIdSkipsLookup<T>(found1: Option<Doc<T>>, found2: Option<Doc<T>>)
    ensures CheckActiveAndNotDeleted(false, found1) == CheckActiveAndNotDeleted(false, found2) == Err(InvalidIdFormat)
  {
  }

  /** Which error wins when several checks fail: the format check, then
      existence, then `isActive`, then `isDeleted`. In particular a document
      that is both inactive and deleted is reported as not active. */
  lemma ErrorPrecedence<T>(idValid: bool, found: Option<Doc<T>>)
    ensures var r := CheckActiveAndNotDeleted(idValid, found);
      && (r == Err(InvalidIdFormat) <==> !idValid)
      && (r == Err(DocumentNotFound) <==> idValid && found.None?)
      && (r == Err(DocumentNotActive) <==> idValid && found.Some? && !IsSet(found.value.isActive))
      && (r == Err(DocumentDeleted) <==>
            idValid && found.Some? && IsSet(found.value.isActive) && IsSet(found.value.isDeleted))
  {
  }

  /** A document whose schema declares no `isActive` flag never passes: it
      is refused as not active even when it is not deleted. None of the
      state, district, facility, department and health-data schemas declares
      the flag, so as written the guard refuses every one of their documents. */
  lemma UndeclaredActiveFlagRefused<T>(found: Doc<T>)
    requires found.isActive.None?
    ensures CheckActiveAndNotDeleted(true, Some(found)) == Err(DocumentNotActive)
  {
  }

  /** A document as read once its schema declares both flags with the
      defaults `isActive: true` and `isDeleted: false`: a stored value is
      kept, an absent one reads as its default. */
  function WithFlagDefaults<T>(d: Doc<T>): (e: Doc<T>)
    ensures e.isActive.Some? && e.isDeleted.Some? && e.fields == d.fields
    ensures d.isActive.Some? ==> e.isActive == d.isActive
    ensures d.isDeleted.Some? ==> e.isDeleted == d.isDeleted
  {
    Doc(if d.isActive.Some? then d.isActive else Some(true),
        if d.isDeleted.Some? then d.isDeleted else Some(false),
        d.fields)
  }

  /** The guard over documents whose schema declares both flags: the same
      chain of checks, on the flags as read with their defaults. */
  function CheckWithDeclaredFlags<T>(idValid: bool, found: Option<Doc<T>>): (r: Result<Doc<T>>)
    ensures r.Ok? <==>
      (idValid && found.Some? && (found.value.isActive.None? || IsSet(found.value.isActive)) && !IsSet(found.value.isDeleted))
    ensures r.Ok? ==> r.value.fields == found.value.fields
    ensures r.Err? ==> r.error in {InvalidIdFormat, DocumentNotFound, DocumentNotActive, DocumentDeleted}
  {
    CheckActiveAndNotDeleted(idValid, match found case None => None case Some(d) => Some(WithFlagDefaults(d)))
  }

  /** With the flags declared, a document that never stored them passes,
      and a document that stores them is judged exactly as before. */
  lemma DeclaredFlagsAdmitUnflaggedDocuments<T>(idValid: bool, d: Doc<T>)
    ensures d.isActive.None? && d.isDeleted.None? ==> CheckWithDeclaredFlags(true, Some(d)).Ok?
    ensures d.isActive.Some? && d.isDeleted.Some? ==>
      CheckWithDeclaredFlags(idValid, Some(d)) == CheckActiveAndNotDeleted(idValid, Some(d))
  {
  }
}
