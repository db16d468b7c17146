/**
 * What the two AzureOpenAIEmbeddingService variants share: the options they
 * are configured with, their validation, and the check of the vector that
 * comes back. A vector is seen through its length only.
 */
module Embeddings {
  import opened Common
  import opened Text

  /** AzureEmbeddingOptions. */
  datatype EmbeddingOptions = EmbeddingOptions(deploymentName: Option<string>, expectedDimension: int)

  const DefaultExpectedDimension := 1536

  /** new AzureEmbeddingOptions(): no deployment name and 1536 dimensions. */
  function DefaultOptions(): (o: EmbeddingOptions)
    ensures o.deploymentName.None? && o.expectedDimension == DefaultExpectedDimension
  {
    EmbeddingOptions(None, DefaultExpectedDimension)
  }

  /** IOptions<AzureEmbeddingOptions>, whose Value may itself be null. */
  datatype OptionsAccessor = OptionsAccessor(value: Option<EmbeddingOptions>)

  /** An embedding vector, of which only the length matters here. */
  datatype Embedding = Embedding(length: nat)

  /** What a call to the embedding model does: return a vector or throw. */
  datatype GenerationOutcome = Generated(vector: Embedding) | Failed(error: Exception)

  const DeploymentRequired := "Embedding deployment name is required."
  const DimensionNotPositive := "ExpectedDimension must be a positive integer."
  const TextRequired := "Text to embed cannot be null or empty."
  const RequestFailedPrefix := "Failed to generate embedding from Azure OpenAI: "

  /**
   * The option checks both constructors make after checking their first
   * argument: null options, then a blank deployment name, then a dimension
   * that is not positive.
   */
  function CheckOptions(options: Option<OptionsAccessor>): (r: Result<EmbeddingOptions>)
    ensures options.None? || options.value.value.None? ==> r == Err(ArgumentNull("options", None))
    ensures options.Some? && options.value.value.Some? ==>
              var opt := options.value.value.value;
              && (IsNullOrWhiteSpace(opt.deploymentName) ==> r == Err(Argument(DeploymentRequired, Some("options"))))
              && (!IsNullOrWhiteSpace(opt.deploymentName) && opt.expectedDimension <= 0 ==>
                    r == Err(Argument(DimensionNotPositive, Some("options"))))
              && (r.Ok? <==> !IsNullOrWhiteSpace(opt.deploymentName) && opt.expectedDimension > 0)
    ensures r.Ok? ==> options.Some? && options.value.value == Some(r.value)
                      && r.value.deploymentName.Some? && r.value.expectedDimension > 0
  {
    if options.None? || options.value.value.None? then Err(ArgumentNull("options", None))
    else
      var opt := options.value.value.value;
      if IsNullOrWhiteSpace(opt.deploymentName) then Err(Argument(DeploymentRequired, Some("options")))
      else if opt.expectedDimension <= 0 then Err(Argument(DimensionNotPositive, Some("options")))
      else Ok(opt)
  }

  /** Default options are refused until a deployment name is set; with one, they give 1536 dimensions. */
  lemma DefaultOptionsNeedDeployment(name: string)
    ensures CheckOptions(Some(OptionsAccessor(Some(DefaultOptions())))) == Err(Argument(DeploymentRequired, Some("options")))
    ensures !IsNullOrWhiteSpace(Some(name)) ==>
              CheckOptions(Some(OptionsAccessor(Some(DefaultOptions().(deploymentName := Some(name))))))
              == Ok(EmbeddingOptions(Some(name), 1536))
  {
  }

  const MismatchHead := "Embedding dimension mismatch. Expected: "
  const MismatchActual := ", Actual: "
  const MismatchAdvice := ". Make sure your model and database column (VECTOR("
  const MismatchEnd := ")) match."

  /**
   * The message of the dimension-mismatch exception: it opens with the
   * expected dimension and names the actual one.
   */
  function MismatchMessage(expected: nat, actual: nat): (message: string)
    ensures MismatchHead + DecimalString(expected) <= message
    ensures Contains(message, DecimalString(expected)) && Contains(message, DecimalString(actual))
  {
    var e, a := DecimalString(expected), DecimalString(actual);
    var opening, rest := MismatchHead + e, a + (MismatchAdvice + (e + MismatchEnd));
    var message := opening + MismatchActual + rest;
    assert message[|MismatchHead|..|opening|] == e;
    ContainsAt(message, e, |MismatchHead|);
    assert message[|opening| + |MismatchActual|..][..|a|] == a;
    ContainsAt(message, a, |opening| + |MismatchActual|);
    message
  }

  /**
   * The try block around the model call: a vector of the expected length is
   * returned, any other length throws InvalidOperationException, and a
   * RequestFailedException is rethrown wrapped in InvalidOperationException;
   * other exceptions pass through.
   */
  function CheckedEmbedding(outcome: GenerationOutcome, expectedDim: nat): (r: Result<Embedding>)
    ensures r.Ok? <==> outcome.Generated? && outcome.vector.length == expectedDim
    ensures r.Ok? ==> r.value == outcome.vector
    ensures outcome.Generated? && outcome.vector.length != expectedDim ==>
              r == Err(InvalidOperation(MismatchMessage(expectedDim, outcome.vector.length), None))
    ensures outcome.Failed? && outcome.error.RequestFailed? ==>
              r == Err(InvalidOperation(RequestFailedPrefix + outcome.error.message, Some(outcome.error)))
    ensures outcome.Failed? && !outcome.error.RequestFailed? ==> r == Err(outcome.error)
  {
    match outcome
    case Failed(e) =>
      if e.RequestFailed? then Err(InvalidOperation(RequestFailedPrefix + e.message, Some(e))) else Err(e)
    case Generated(v) =>
      if v.length != expectedDim then Err(InvalidOperation(MismatchMessage(expectedDim, v.length), None))
      else Ok(v)
  }
}
