/**
 * The state of the `Index` page of web/src/pages/home.tsx and the two async
 * handlers that change it. Each handler is split at its `await`: a start
 * step (the state updates before the request) and a completion step whose
 * parameter is the request's outcome (`response.ok` and the body read, or
 * an exception anywhere in the `try`).
 */
module Home {
  import opened Wrappers
  import opened PatientForm
  import opened FileUpload

  /** How the PDF-to-text request ended: the response text, or a failure. */
  datatype ConversionOutcome = Converted(text: string) | ConversionFailed

  /**
   * How the analysis request ended: the two fields destructured from the
   * response JSON, or a failure.
   */
  datatype AnalysisOutcome = Analysed(patientSummary: string, biomarkerTrends: string) | AnalysisFailed

  /** The JSON body `handleAnalysis` posts. */
  datatype AnalysisRequest = AnalysisRequest(reportContent: string, patientDetails: PatientData)

  /** `!!reportContent && !!patientData.age`: JavaScript strings are truthy exactly when non-empty. */
  predicate Gate(reportContent: string, patientData: PatientData) {
    reportContent != "" && patientData.age != ""
  }

  /** The gate reads only the report and the age: gender, weight and symptoms never open or close it. */
  lemma GateIgnoresOtherFields(reportContent: string, data: PatientData, field: Field, value: string)
    requires field != Age
    ensures Gate(reportContent, Set(data, field, value)) == Gate(reportContent, data)
  {
  }

  /** With a report present, the gate follows the age field as the form edits it. */
  lemma GateFollowsAge(reportContent: string, data: PatientData, value: string)
    requires reportContent != ""
    ensures Gate(reportContent, Set(data, Age, value)) <==> value != ""
  {
  }

  class HomePage {
    var uploadedFile: Option<File>
    var patientData: PatientData
    var reportContent: string
    var isProcessing: bool
    var analysisResult1: string
    var analysisResult2: string
    var isAnalyzing: bool

    /** The `useState` initial values. */
    constructor()
      ensures uploadedFile == None && patientData == EmptyPatient && reportContent == ""
      ensures !isProcessing && analysisResult1 == "" && analysisResult2 == "" && !isAnalyzing
    {
      uploadedFile := None;
      patientData := EmptyPatient;
      reportContent := "";
      isProcessing := false;
      analysisResult1 := "";
      analysisResult2 := "";
      isAnalyzing := false;
    }

    /** `canAnalyze` as passed to `ReportDisplay`. */
    predicate CanAnalyze()
      reads this
    {
      Gate(reportContent, patientData)
    }

    /** `onDataChange={setPatientData}` fed by the form's `handleInputChange(field, value)`. */
    method EditPatientField(field: Field, value: string)
      modifies this
      ensures patientData == Set(old(patientData), field, value)
      ensures uploadedFile == old(uploadedFile) && reportContent == old(reportContent)
      ensures isProcessing == old(isProcessing) && isAnalyzing == old(isAnalyzing)
      ensures analysisResult1 == old(analysisResult1) && analysisResult2 == old(analysisResult2)
    {
      var calls := HandleInputChange(patientData, field, value);
      patientData := calls[0];
    }

    /** `handleFileUpload(file)` up to its first `await`. */
    method StartUpload(file: File)
      modifies this
      ensures uploadedFile == Some(file) && isProcessing
      ensures patientData == old(patientData) && reportContent == old(reportContent)
      ensures isAnalyzing == old(isAnalyzing)
      ensures analysisResult1 == old(analysisResult1) && analysisResult2 == old(analysisResult2)
    {
      uploadedFile := Some(file);
      isProcessing := true;
    }

    /**
     * The rest of `handleFileUpload`: the report text is replaced only on a
     * successful conversion, and `finally` always clears `isProcessing`.
     */
    method CompleteUpload(outcome: ConversionOutcome)
      modifies this
      ensures reportContent == (if outcome.Converted? then outcome.text else old(reportContent))
      ensures !isProcessing
      ensures uploadedFile == old(uploadedFile) && patientData == old(patientData)
      ensures isAnalyzing == old(isAnalyzing)
      ensures analysisResult1 == old(analysisResult1) && analysisResult2 == old(analysisResult2)
    {
      if outcome.Converted? {
        reportContent := outcome.text;
      }
      isProcessing := false;
    }

    /**
     * `handleAnalysis` up to its `await`: with the gate closed it returns at
     * once, changing nothing and posting nothing; otherwise it sets
     * `isAnalyzing` and posts the report and the patient data as they are.
     */
    method StartAnalysis() returns (request: Option<AnalysisRequest>)
      modifies this
      ensures request.Some? <==> old(CanAnalyze())
      ensures request.Some? ==> request.value == AnalysisRequest(old(reportContent), old(patientData))
      ensures isAnalyzing == (old(isAnalyzing) || request.Some?)
      ensures uploadedFile == old(uploadedFile) && patientData == old(patientData)
      ensures reportContent == old(reportContent) && isProcessing == old(isProcessing)
      ensures analysisResult1 == old(analysisResult1) && analysisResult2 == old(analysisResult2)
    {
      if !CanAnalyze() {
        return None;
      }
      isAnalyzing := true;
      request := Some(AnalysisRequest(reportContent, patientData));
    }

    /**
     * The rest of `handleAnalysis`: one response sets both results, a failure
     * sets neither, and `finally` always clears `isAnalyzing`.
     */
    method CompleteAnalysis(outcome: AnalysisOutcome)
      modifies this
      ensures outcome.Analysed? ==> analysisResult1 == outcome.patientSummary && analysisResult2 == outcome.biomarkerTrends
      ensures outcome.AnalysisFailed? ==> analysisResult1 == old(analysisResult1) && analysisResult2 == old(analysisResult2)
      ensures !isAnalyzing
      ensures uploadedFile == old(uploadedFile) && patientData == old(patientData)
      ensures reportContent == old(reportContent) && isProcessing == old(isProcessing)
    {
      if outcome.Analysed? {
        analysisResult1 := outcome.patientSummary;
        analysisResult2 := outcome.biomarkerTrends;
      }
      isAnalyzing := false;
    }
  }

  /**
   * A fresh page that uploads a file, receives `conversion`, has its age
   * typed in and is then asked to analyse: the request is posted exactly
   * when both the converted text and the age are non-empty, and it carries
   * them verbatim.
   */
  method UploadThenAnalyse(file: File, conversion: ConversionOutcome, age: string)
    returns (request: Option<AnalysisRequest>)
    ensures request.Some? <==> conversion.Converted? && conversion.text != "" && age != ""
    ensures request.Some? ==> request.value == AnalysisRequest(conversion.text, EmptyPatient.(age := age))
  {
    var page := new HomePage();
    page.StartUpload(file);
    page.CompleteUpload(conversion);
    page.EditPatientField(Age, age);
    request := page.StartAnalysis();
  }

  /**
   * A page that analysed a first report and then uploads a second one whose
   * analysis fails keeps showing the first results, next to the second
   * report: nothing in either handler clears them.
   */
  method ResultsSurviveReupload(first: string, age: string, summary: string, trends: string,
                                file: File, conversion: ConversionOutcome)
    returns (report: string, result1: string, result2: string)
    requires first != "" && age != ""
    ensures report == (if conversion.Converted? then conversion.text else first)
    ensures result1 == summary && result2 == trends
  {
    var page := new HomePage();
    page.StartUpload(file);
    page.CompleteUpload(Converted(first));
    page.EditPatientField(Age, age);
    var request := page.StartAnalysis();
    page.CompleteAnalysis(Analysed(summary, trends));
    page.StartUpload(file);
    page.CompleteUpload(conversion);
    request := page.StartAnalysis();
    page.CompleteAnalysis(AnalysisFailed);
    report, result1, result2 := page.reportContent, page.analysisResult1, page.analysisResult2;
  }
}
