/** The build and dependency directories that scans skip (`frameworkDirs`). */
module FrameworkConfig {

  const FrameworkDirs: seq<string> := [
    ".next", "dist", "build", "node_modules", "vendor", "bin", "__pycache__",
    "venv", "target", "out", "migrations", ".prisma", "generated"
  ]
}
