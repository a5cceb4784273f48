TestResult.DisplayName,TestResult.Outcome,TestResult.Duration,TestResult.ResourceCount,RandomSeed
GridPipeline.InvarianceStepAsWritten (well-formedness),Passed,00:00:00.1566575,150439,2
