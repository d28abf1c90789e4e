/**
 * The class records of the bytecode analysis service's `/analyze` answer,
 * as built by `ASMAnalysisService.analyze` and read by `ASMExtractor`.
 * Each record keeps the keys its consumers read; `None` stands for a JSON
 * null or a missing key.
 */
module AnalyzerRecords {
  import opened Common

  /** One `inheritance` entry: the parent type and `extends`/`implements`. */
  datatype InheritanceRecord = InheritanceRecord(fqn: string, kind: Option<string>)

  /** One `fields` entry: the field's type. */
  datatype FieldRecord = FieldRecord(fieldType: Option<string>)

  /** One `calls` entry of a method. */
  datatype CallRecord = CallRecord(toFqn: string, kind: Option<string>, lineNumber: Option<int>)

  datatype MethodRecord = MethodRecord(fqn: string, lineNumber: Option<int>, returnType: Option<string>,
                                       arguments: seq<string>, calls: seq<CallRecord>)

  datatype ClassRecord = ClassRecord(fqn: string, nodeType: string, methods: seq<MethodRecord>,
                                     fields: seq<FieldRecord>, inheritance: seq<InheritanceRecord>)
}
