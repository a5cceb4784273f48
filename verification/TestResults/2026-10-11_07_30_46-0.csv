TestResult.DisplayName,TestResult.Outcome,TestResult.Duration,TestResult.ResourceCount,RandomSeed
GridPipeline.InvarianceStepAsWritten (well-formedness),Passed,00:00:00.1811365,150447,1
