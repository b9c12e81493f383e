/** The loaded project's summaries, as models/project_model.py keeps them. */
module ProjectModel {
  /** The four string fields other code assigns step by step. */
  class ProjectContext {
    var projectPath: string
    var treeStructure: string
    var functionSummary: string
    var configSummary: string

    /** A fresh context holds four empty strings and so is not loaded. */
    constructor ()
      ensures projectPath == "" && treeStructure == "" && functionSummary == "" && configSummary == ""
      ensures !IsLoaded()
    {
      projectPath := "";
      treeStructure := "";
      functionSummary := "";
      configSummary := "";
    }

    /** `is_loaded()`: a project path has been recorded. */
    predicate IsLoaded()
      reads this
    {
      projectPath != ""
    }
  }

  /**
   * Whether a context is loaded depends on its project path alone: two contexts with
   * the same path agree, whatever their summaries hold, and any non-empty path is loaded.
   */
  lemma LoadedByPathOnly(a: ProjectContext, b: ProjectContext)
    requires a.projectPath == b.projectPath
    ensures a.IsLoaded() == b.IsLoaded()
    ensures a.IsLoaded() <==> |a.projectPath| > 0
  {
  }
}
