/** The source-viewer tree (data class SourceCodeModel): the generator script
    writes it and FileStructureAdapter browses it. */
module SourceCodeModel {
  import opened Wrappers

  datatype SourceCodeModel = SourceCodeModel(name: string, path: string, isDirectory: bool,
                                             content: Option<string>,
                                             children: Option<seq<SourceCodeModel>>)
}
