/** The file-type whitelist shared by payload loading and saving
    (spock/backend/handler.py). */
module Handler {
  import opened Results

  /** The keys of `_supported_extensions`, in declaration order. */
  const SupportedExtensions: seq<string> := [".yaml", ".toml", ".json"]

  /** What a handler holds: the supported extensions and the optional S3
      configuration, kept as an opaque token. */
  datatype BaseHandler = BaseHandler(supportedExtensions: seq<string>, s3Config: Option<string>)

  /** `BaseHandler.__init__` */
  function NewHandler(s3Config: Option<string>): (h: BaseHandler)
    ensures h.s3Config == s3Config
    ensures h.supportedExtensions == SupportedExtensions
  {
    BaseHandler(SupportedExtensions, s3Config)
  }

  /** `_check_extension`: an exact, case-sensitive membership test. */
  function CheckExtension(h: BaseHandler, ext: string): (r: Outcome)
    ensures r.Pass? <==> ext in h.supportedExtensions
    ensures r.Fail? ==> r.exc == TypeError
  {
    if ext in h.supportedExtensions then Pass else Fail(TypeError)
  }

  /** Exactly `.yaml`, `.toml` and `.json` pass, whatever the S3 configuration. */
  lemma CheckExtensionExact(s3Config: Option<string>, ext: string)
    ensures CheckExtension(NewHandler(s3Config), ext).Pass? <==> ext == ".yaml" || ext == ".toml" || ext == ".json"
  {
  }

  /** Letter case matters: `.YAML` is refused. */
  lemma UpperCaseRefused(s3Config: Option<string>)
    ensures CheckExtension(NewHandler(s3Config), ".YAML") == Fail(TypeError)
  {
    assert ".YAML" != ".yaml";
  }
}
