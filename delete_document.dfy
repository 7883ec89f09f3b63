/**
 * The document-deletion Lambda: it checks the three query parameters and the document type, then
 * deletes the object `{category_id}/{document_name}.{document_type}` from S3 and afterwards the
 * document's row from the database.
 */
module DeleteDocument {
  import opened Common
  import IngestionMain

  /** The types the handler agrees to delete. */
  const AllowedDocumentTypes: set<string> := {"pdf", "docx", "pptx", "txt", "xlsx", "xps", "mobi", "cbz"}

  /** The `accept` attribute of the category upload form, one extension per entry. */
  const UploadFormAccept: seq<string> := [".pdf", ".docx", ".pptx", ".txt", ".xlsx", ".xps", ".mobi", ".cbz"]

  const MissingParameters := "Missing required parameters: category_id, document_id, document_name, or document_type"
  const UnsupportedType := "Unsupported document type"
  const InternalError := "Internal server error"
  const Deleted := "Document deleted successfully"

  /** The changes made, in order: one `delete_objects` call and one row deletion. */
  datatype Action = ObjectsDeleted(bucket: string, keys: seq<string>)
                  | RowDeleted(categoryId: string, documentName: string, documentType: string)

  /** Whether the S3 call and the database deletion (connection or query) raise. */
  datatype Services = Services(s3Fails: bool, dbFails: bool)

  datatype Response = Response(statusCode: int, body: string)

  datatype Outcome = Raised | Returned(response: Response)

  /** The object key of a document. */
  function ObjectKey(categoryId: string, documentName: string, documentType: string): (k: string)
    ensures |k| == |categoryId| + |documentName| + |documentType| + 2
  {
    categoryId + "/" + documentName + "." + documentType
  }

  /**
   * `lambda_handler`: a null parameter object raises before any check; any empty parameter and
   * then an unsupported type answer 400 with nothing changed; otherwise the one object is deleted
   * from `bucket` before the row, and a failing database step answers 500 with the object gone.
   */
  method Handler(params: QueryParams, bucket: string, services: Services) returns (out: Outcome, trace: seq<Action>)
    ensures params.Null? ==> out == Raised && trace == []
    ensures !params.Null? ==>
              var categoryId := params.Lookup("category_id", "");
              var documentName := params.Lookup("document_name", "");
              var documentType := params.Lookup("document_type", "");
              var key := ObjectKey(categoryId, documentName, documentType);
              if categoryId == "" || documentName == "" || documentType == "" then
                out == Returned(Response(400, MissingParameters)) && trace == []
              else if documentType !in AllowedDocumentTypes then
                out == Returned(Response(400, UnsupportedType)) && trace == []
              else if services.s3Fails then
                out == Returned(Response(500, InternalError)) && trace == []
              else if services.dbFails then
                out == Returned(Response(500, "Error deleting file " + documentName + "." + documentType + " from the database"))
                && trace == [ObjectsDeleted(bucket, [key])]
              else
                out == Returned(Response(200, Deleted))
                && trace == [ObjectsDeleted(bucket, [key]), RowDeleted(categoryId, documentName, documentType)]
  {
    trace := [];
    if params.Null? {
      return Raised, trace;
    }
    var categoryId := params.Lookup("category_id", "");
    var documentName := params.Lookup("document_name", "");
    var documentType := params.Lookup("document_type", "");
    if categoryId == "" || documentName == "" || documentType == "" {
      return Returned(Response(400, MissingParameters)), trace;
    }
    var objectsToDelete: seq<string> := [];
    if documentType in AllowedDocumentTypes {
      objectsToDelete := objectsToDelete + [ObjectKey(categoryId, documentName, documentType)];
      assert objectsToDelete == [ObjectKey(categoryId, documentName, documentType)];
    } else {
      return Returned(Response(400, UnsupportedType)), trace;
    }
    if services.s3Fails {
      return Returned(Response(500, InternalError)), trace;
    }
    trace := trace + [ObjectsDeleted(bucket, objectsToDelete)];
    assert trace == [ObjectsDeleted(bucket, objectsToDelete)];
    if services.dbFails {
      return Returned(Response(500, "Error deleting file " + documentName + "." + documentType + " from the database")), trace;
    }
    trace := trace + [RowDeleted(categoryId, documentName, documentType)];
    assert trace == [ObjectsDeleted(bucket, objectsToDelete), RowDeleted(categoryId, documentName, documentType)];
    return Returned(Response(200, Deleted)), trace;
  }

  /** The types deleted are exactly the extensions the upload form offers, without their dot. */
  lemma AllowlistMatchesUploadForm(documentType: string)
    ensures documentType in AllowedDocumentTypes <==> "." + documentType in UploadFormAccept
  {
    if "." + documentType in UploadFormAccept {
      assert documentType == ("." + documentType)[1..];
      assert forall e :: e in UploadFormAccept ==> e[1..] in AllowedDocumentTypes;
    }
    if documentType in AllowedDocumentTypes {
      DottedTypes();
    }
  }

  /** Each allowed type, behind a dot, is offered by the upload form. */
  lemma DottedTypes()
    ensures forall t :: t in AllowedDocumentTypes ==> "." + t in UploadFormAccept
  {
    assert "." + "pdf" == ".pdf";
    assert "." + "docx" == ".docx";
    assert "." + "pptx" == ".pptx";
    assert "." + "txt" == ".txt";
    assert "." + "xlsx" == ".xlsx";
    assert "." + "xps" == ".xps";
    assert "." + "mobi" == ".mobi";
    assert "." + "cbz" == ".cbz";
  }

  /** No allowed type contains a `.` or a `/`. */
  lemma AllowedTypesPlain(documentType: string)
    requires documentType in AllowedDocumentTypes
    ensures '.' !in documentType && '/' !in documentType
  {
  }

  /**
   * The key deleted is the one ingestion parses back into the same three parameters, whenever the
   * category and the name hold no `/`: the object deleted is the document the row describes.
   */
  lemma DeletedKeyParsesBack(categoryId: string, documentName: string, documentType: string)
    requires '/' !in categoryId && '/' !in documentName && documentType in AllowedDocumentTypes
    ensures IngestionMain.ParseS3FilePath(ObjectKey(categoryId, documentName, documentType))
              == Some(IngestionMain.KeyParts(categoryId, documentName, documentType))
  {
    AllowedTypesPlain(documentType);
    IngestionMain.ParseOfBuiltKey(categoryId, documentName, documentType);
  }
}
