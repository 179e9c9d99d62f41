/** The records the dashboard passes between its form, its controller and its
    two service calls (types.ts), plus the option and result wrappers the
    model uses for `null` and for thrown errors. */
module Types {

  /** `T | null`, and the links of an optional chain. */
  datatype Option<T> = None | Some(value: T)

  /** The value of an awaited call, or the `message` of the error it threw. */
  datatype Result<T> = Ok(value: T) | Err(message: string)

  /** The patient record the form collects. Every TypeScript `number` is a
      `real`; `smokingStatus` and `physicalActivity` are the raw strings the
      form's select elements store. */
  datatype PatientData = PatientData(
    age: real,
    gender: string,
    weight: real,
    height: real,
    systolicBP: real,
    diastolicBP: real,
    fastingBloodSugar: real,
    cholesterol: real,
    smokingStatus: string,
    physicalActivity: string,
    familyHistory: seq<string>)

  /** One assessed condition. `riskLevel` is whatever string the model
      returned: the parsed response is never validated. */
  datatype DiseaseRisk = DiseaseRisk(
    disease: string,
    riskScore: real,
    riskLevel: string,
    reasoning: string)

  datatype PredictionResult = PredictionResult(
    risks: seq<DiseaseRisk>,
    clinicalSummary: string,
    recommendations: seq<string>)

  /** The controller's view state; `None` stands for `null`. */
  datatype AppState = AppState(
    isAnalyzing: bool,
    result: Option<PredictionResult>,
    error: Option<string>,
    isSpeaking: bool)
}
