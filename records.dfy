/** The values the session controller keeps: uploaded files, authentication
    results, the model status and the classifier choice, and the two status
    renderings (label text and colour class). */
module Records {

  /** Lifecycle of an uploaded file; only `Uploaded` is ever assigned. */
  datatype FileStatus = Uploaded | Processing | Processed | Failed

  /** An uploaded audio file; the browser `File` payload is not modelled. */
  datatype AudioFile = AudioFile(id: string, name: string, speaker: string, status: FileStatus)

  /** One authentication result; the random confidence is not modelled. */
  datatype AuthResult = AuthResult(fileName: string, trueSpeaker: string, predictedSpeaker: string, isCorrect: bool)

  datatype ModelStatus = NotTrained | Training | Trained | Error

  datatype ClassifierType = SVM | KNN

  /** Which of the two upload zones an action targets. */
  datatype Collection = Enrollment | Test {
    function Other(): (c: Collection)
      ensures c != this
    {
      if this == Enrollment then Test else Enrollment
    }
  }

  datatype Option<T> = None | Some(value: T)

  /** Label shown for the model status. */
  function StatusText(status: ModelStatus): (text: string)
    ensures text != ""
    ensures text == "Training Failed" <==> status == Error
    ensures text == "Model Trained Successfully" <==> status == Trained
  {
    match status
    case Trained => "Model Trained Successfully"
    case Training => "Training Model..."
    case Error => "Training Failed"
    case NotTrained => "Model Not Trained"
  }

  /** Colour class used for the model status. */
  function StatusColor(status: ModelStatus): (color: string)
    ensures color == "text-red-600" <==> StatusText(status) == "Training Failed"
    ensures color == "text-green-600" <==> StatusText(status) == "Model Trained Successfully"
  {
    match status
    case Trained => "text-green-600"
    case Training => "text-blue-600"
    case Error => "text-red-600"
    case NotTrained => "text-gray-600"
  }

  /** Every status is rendered distinctly, by label and by colour. */
  lemma StatusRenderingDistinct(s: ModelStatus, t: ModelStatus)
    ensures StatusText(s) == StatusText(t) ==> s == t
    ensures StatusColor(s) == StatusColor(t) ==> s == t
  {
  }
}
